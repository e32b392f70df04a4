/** What the global filter of a node holds, in every reachable state. */
module GlobalFilter {
  import opened Text
  import opened Bloom
  import opened Keys
  import opened Replication
  import opened Downloads

  /** The put reaches the point where content is announced: it decodes, its key is in no member or
      group family, and below a group index the node is a member. */
  predicate Accepted(c: Config, store: Store, k: Key, v: Value)
    requires WellFormed(k)
  {
    && ParseMeta(v).Some? && !IsMemberKey(k) && !IsGroupKey(k)
    && (IsIndexKey(k) ==> IsMember(c, store, List(k)[1]))
  }

  predicate IsForeign(c: Config, m: Metatag) {
    m.owner != c.self && c.autoDownload
  }

  /** The texts that one event should make the global filter hold. */
  function RecordedBy(c: Config, s: Node, e: Replication.Event): set<string>
    requires e.Put? ==> WellFormed(e.key)
  {
    match e
    case Put(k, v) =>
      if Accepted(c, s.store, k, v) && !IsForeign(c, ParseMeta(v).value) then {ParseMeta(v).value.tag} else {}
    case Delete(k) => {RemovalMarker(k)}
    case Done(id, ok, _) => if ok && id < |s.sent| && s.sent[id].group == "" then {s.sent[id].tag} else {}
    case Take(_, _) => {}
    case Launch(_, _) => {}
    case MarkStarted(_, _) => {}
    case Reconnect(_) => {}
    case Save => {}
    case Restart => {}
  }

  /** The texts recorded by a run: tags this host owns (or takes without download), non-group tags
      whose download returned success, and removal markers. */
  ghost function Recorded(c: Config, es: seq<Replication.Event>): set<string>
    requires Legal(c, es)
  {
    if es == [] then {}
    else
      var before := es[..|es| - 1];
      Recorded(c, before) + RecordedBy(c, Run(c, before), es[|es| - 1])
  }

  lemma MemberAfterPut(c: Config, store: Store, k: Key, v: Value, group: string)
    requires IsIndexKey(k)
    ensures IsMember(c, store[k := v], group) == IsMember(c, store, group)
  {
    FamiliesAreDisjoint(k);
    var mk := MemberKey(c.self, group);
    assert mk[..|MEMBER_PREFIX|] == MEMBER_PREFIX;
  }

  /** What a put hands to the channel. */
  function Handed(c: Config, s: Node, k: Key, v: Value): seq<Metatag>
    requires WellFormed(k)
  {
    if Accepted(c, s.store, k, v) && IsForeign(c, ParseMeta(v).value) then [ParseMeta(v).value] else []
  }

  lemma AnnounceSends(c: Config, s: Node, m: Metatag)
    ensures Announce(c, s, m).sent == s.sent + if IsForeign(c, m) then [m] else []
    ensures Announce(c, s, m).finished == s.finished
  {
  }

  lemma HookSends(c: Config, s: Node, k: Key, v: Value)
    requires WellFormed(k)
    ensures PutHook(c, s, k, v).sent == s.sent + Handed(c, s, k, v) && PutHook(c, s, k, v).finished == s.finished
  {
    FamiliesAreDisjoint(k);
    if ParseMeta(v).Some? {
      var m := ParseMeta(v).value;
      AnnounceSends(c, s, m);
      if IsIndexKey(k) {
        AnnounceSends(c, GroupAdd(c, s, List(k)[1], {m.tag}), m);
      }
    }
  }

  /** A put changes no content record and no download but for the one it may hand over. */
  lemma {:induction false} PutEffect(c: Config, s: Node, k: Key, v: Value)
    requires WellFormed(k)
    ensures var t := Step(c, s, Put(k, v));
            && t.store == s.store[k := v] && t.contents == s.contents && t.contentsFile == s.contentsFile
            && t.finished == s.finished && t.sent == s.sent + Handed(c, s, k, v)
  {
    var s' := s.(store := s.store[k := v]);
    if IsIndexKey(k) {
      MemberAfterPut(c, s.store, k, v, List(k)[1]);
    }
    assert Handed(c, s', k, v) == Handed(c, s, k, v);
    HookSends(c, s', k, v);
    HookKeepsStore(c, s', k, v);
    HookKeepsContents(c, s', k, v);
  }

  lemma PutRecords(c: Config, s: Node, k: Key, v: Value)
    requires WellFormed(k)
    ensures var t := Step(c, s, Put(k, v));
            && t.global == s.global + Bits(c.hash, RecordedBy(c, s, Put(k, v)))
            && (s.globalFile == s.global ==> t.globalFile == t.global)
  {
    FamiliesAreDisjoint(k);
    BitsOfNone(c.hash);
    if IsIndexKey(k) {
      MemberAfterPut(c, s.store, k, v, List(k)[1]);
    }
    if ParseMeta(v).Some? {
      BitsOfOne(c.hash, ParseMeta(v).value.tag);
    }
  }

  lemma StepRecords(c: Config, s: Node, e: Replication.Event)
    requires Enabled(s, e) && s.globalFile == s.global
    ensures var t := Step(c, s, e);
            t.global == s.global + Bits(c.hash, RecordedBy(c, s, e)) && t.globalFile == t.global
  {
    BitsOfNone(c.hash);
    match e
    case Put(k, v) => PutRecords(c, s, k, v);
    case Delete(k) => BitsOfOne(c.hash, RemovalMarker(k));
    case Done(id, ok, now) => BitsOfOne(c.hash, s.sent[id].tag);
    case Take(_, _) =>
    case Launch(_, _) =>
    case MarkStarted(_, _) =>
    case Reconnect(_) =>
    case Save =>
    case Restart =>
  }

  /** In every reachable state, restarts included, the global filter has exactly the bits of the
      recorded texts, and the state file agrees with it. */
  lemma {:induction false} GlobalFilterIsExact(c: Config, es: seq<Replication.Event>)
    requires Legal(c, es)
    ensures Run(c, es).global == Bits(c.hash, Recorded(c, es))
    ensures Run(c, es).globalFile == Run(c, es).global
  {
    if es == [] {
      BitsOfNone(c.hash);
    } else {
      var before := es[..|es| - 1];
      GlobalFilterIsExact(c, before);
      StepRecords(c, Run(c, before), es[|es| - 1]);
      BitsOfUnion(c.hash, Recorded(c, before), RecordedBy(c, Run(c, before), es[|es| - 1]));
    }
  }

  /** The filter never loses a bit, so a tag that tests positive keeps doing so. */
  lemma GlobalFilterGrows(c: Config, es: seq<Replication.Event>, n: nat)
    requires Legal(c, es) && n <= |es|
    ensures Legal(c, es[..n]) && Run(c, es[..n]).global <= Run(c, es).global
  {
    LegalPrefix(c, es, n);
    GlobalFilterIsExact(c, es[..n]);
    GlobalFilterIsExact(c, es);
    RecordedGrows(c, es, n);
  }

  lemma {:induction false} RecordedGrows(c: Config, es: seq<Replication.Event>, n: nat)
    requires Legal(c, es) && n <= |es|
    ensures Legal(c, es[..n]) && Recorded(c, es[..n]) <= Recorded(c, es)
    decreases |es|
  {
    LegalPrefix(c, es, n);
    if n == |es| {
      assert es[..n] == es;
    } else {
      RecordedGrows(c, es[..|es| - 1], n);
      assert es[..|es| - 1][..n] == es[..n];
    }
  }

  // ---------- where a recorded text comes from ----------

  /** Event `i` explains the text: a deletion's marker, the tag of an accepted put that is not foreign,
      or the end of a download outside the groups. */
  ghost predicate Explains(c: Config, es: seq<Replication.Event>, i: nat, text: string)
    requires Legal(c, es) && i < |es|
  {
    LegalPrefix(c, es, i);
    var s := Run(c, es[..i]);
    match es[i]
    case Delete(k) => text == RemovalMarker(k)
    case Put(k, v) =>
      Accepted(c, s.store, k, v) && !IsForeign(c, ParseMeta(v).value) && text == ParseMeta(v).value.tag
    case Done(id, ok, _) => ok && s.sent[id].group == "" && text == s.sent[id].tag
    case Take(_, _) => false
    case Launch(_, _) => false
    case MarkStarted(_, _) => false
    case Reconnect(_) => false
    case Save => false
    case Restart => false
  }

  lemma ExplainsIff(c: Config, es: seq<Replication.Event>, i: nat, text: string)
    requires Legal(c, es) && i < |es|
    ensures Legal(c, es[..i]) && Enabled(Run(c, es[..i]), es[i])
    ensures Explains(c, es, i, text) <==> text in RecordedBy(c, Run(c, es[..i]), es[i])
  {
    LegalPrefix(c, es, i);
  }

  ghost predicate Explained(c: Config, es: seq<Replication.Event>, text: string)
    requires Legal(c, es)
  {
    exists i: nat :: i < |es| && Explains(c, es, i, text)
  }

  lemma ExplainsInPrefix(c: Config, es: seq<Replication.Event>, i: nat, text: string)
    requires Legal(c, es) && i < |es| - 1
    ensures Legal(c, es[..|es| - 1]) && (Explains(c, es, i, text) <==> Explains(c, es[..|es| - 1], i, text))
  {
    var before := es[..|es| - 1];
    assert before[..i] == es[..i] && before[i] == es[i];
    ExplainsIff(c, es, i, text);
    ExplainsIff(c, before, i, text);
  }

  lemma ExplainedSnoc(c: Config, es: seq<Replication.Event>, text: string)
    requires Legal(c, es) && es != []
    ensures Explained(c, es, text) <==> Explained(c, es[..|es| - 1], text) || Explains(c, es, |es| - 1, text)
  {
    var n := |es| - 1;
    if Explained(c, es[..n], text) {
      var i: nat :| i < n && Explains(c, es[..n], i, text);
      ExplainsInPrefix(c, es, i, text);
    }
    if Explained(c, es, text) {
      var i: nat :| i <= n && Explains(c, es, i, text);
      if i < n {
        ExplainsInPrefix(c, es, i, text);
      }
    }
  }

  /** A text is recorded exactly if some event explains it: a foreign tag never is before its download
      has returned success. */
  lemma {:induction false} RecordedIffExplained(c: Config, es: seq<Replication.Event>, text: string)
    requires Legal(c, es)
    ensures text in Recorded(c, es) <==> Explained(c, es, text)
  {
    if es == [] {
    } else {
      RecordedIffExplained(c, es[..|es| - 1], text);
      ExplainedSnoc(c, es, text);
      ExplainsIff(c, es, |es| - 1, text);
    }
  }

  // ---------- deletion ----------

  /** A deletion on a new node sets the bits of the word and the name, and of nothing else. */
  lemma DeletionRecordsMarker(c: Config, dir: string, last: string, rest: string)
    requires SlashFree(last) && FollowsLastColon(last, rest)
    ensures var t := Step(c, NEW_NODE, Event.Delete(dir + "/" + last));
            t.global == Positions(c.hash, "removed " + rest) && t.globalFile == t.global
  {
    MarkerIs(dir, last, rest);
  }

  // ---------- the two readers of a group ----------

  /** Owner and member process the same group put from equal states. Unless the tag's bits happen to be
      set already, their global filters differ after it. */
  lemma GroupPutSplitsGlobalFilters(owner: Config, member: Config, s: Node, k: Key, v: Value)
    requires owner.hash == member.hash && owner.self != member.self && member.autoDownload
    requires IsIndexKey(k) && WellFormed(k)
    requires ParseMeta(v).Some? && ParseMeta(v).value.owner == owner.self
    requires IsMember(owner, s.store, List(k)[1])
    ensures var m := ParseMeta(v).value;
            Step(owner, s, Put(k, v)).global == Step(member, s, Put(k, v)).global
            <==> Test(owner.hash, s.global, m.tag)
  {
    PutRecords(owner, s, k, v);
    PutRecords(member, s, k, v);
    FamiliesAreDisjoint(k);
    BitsOfNone(owner.hash);
    BitsOfOne(owner.hash, ParseMeta(v).value.tag);
  }
}
