/** The keys of the replicated store: three reserved families and plain content tags. Keys are clean
    paths, so `datastore.NewKey` only supplies a missing leading slash. */
module Keys {
  import opened Text

  type Key = string

  const GROUP_PREFIX := "/groups"
  const MEMBER_PREFIX := "/group-member"
  const INDEX_PREFIX := "/group-index"

  function NewKey(s: string): Key {
    if HasPrefix(s, "/") then s else "/" + s
  }

  /** `Key.List`: the path elements after the leading slash. */
  function List(k: Key): seq<string> {
    Split(k, SLASH)[1..]
  }

  function GroupKey(groupID: string): Key {
    GROUP_PREFIX + "/" + groupID
  }

  function MemberKey(userID: string, groupID: string): Key {
    MEMBER_PREFIX + "/" + userID + "/" + groupID
  }

  function IndexKey(groupID: string, tag: string): Key {
    INDEX_PREFIX + "/" + groupID + "/" + tag
  }

  lemma KeysAre(user: string, group: string, tag: string)
    ensures GroupKey(group) == "/groups/" + group
    ensures MemberKey(user, group) == "/group-member/" + user + "/" + group
    ensures IndexKey(group, tag) == "/group-index/" + group + "/" + tag
  {
    assert "/groups" + "/" == "/groups/" && "/group-member" + "/" == "/group-member/";
    assert "/group-index" + "/" == "/group-index/";
  }

  predicate IsGroupKey(k: Key) { HasPrefix(k, GROUP_PREFIX) }

  predicate IsMemberKey(k: Key) { HasPrefix(k, MEMBER_PREFIX) }

  predicate IsIndexKey(k: Key) { HasPrefix(k, INDEX_PREFIX) }

  predicate IsPlainKey(k: Key) { !IsGroupKey(k) && !IsMemberKey(k) && !IsIndexKey(k) }

  /** The put hook indexes the elements of keys in the reserved families without a check. */
  predicate WellFormed(k: Key) {
    && (IsMemberKey(k) ==> |List(k)| >= 3)
    && (IsIndexKey(k) ==> |List(k)| >= 2)
  }

  /** A store query returns the keys strictly below its prefix. */
  predicate Under(k: Key, prefix: string) {
    HasPrefix(k, prefix + "/")
  }

  function AfterLastColon(s: string): string {
    if s == "" || s[|s| - 1] == ':' then "" else AfterLastColon(s[..|s| - 1]) + [s[|s| - 1]]
  }

  /** `Key.Name`: the last path element, from its last colon on. */
  function Name(k: Key): string {
    AfterLastColon(AfterLastSlash(k))
  }

  function RemovalMarker(k: Key): string {
    "removed " + Name(k)
  }

  // ---------- the families are disjoint ----------

  lemma FamiliesAreDisjoint(k: Key)
    ensures !(IsGroupKey(k) && IsMemberKey(k))
    ensures !(IsGroupKey(k) && IsIndexKey(k))
    ensures !(IsMemberKey(k) && IsIndexKey(k))
  {
    if |k| > 7 {
      assert IsGroupKey(k) ==> k[6] == GROUP_PREFIX[6];
      assert IsMemberKey(k) ==> k[6] == MEMBER_PREFIX[6] && k[7] == MEMBER_PREFIX[7];
      assert IsIndexKey(k) ==> k[6] == INDEX_PREFIX[6] && k[7] == INDEX_PREFIX[7];
    }
  }

  // ---------- parsing undoes construction ----------

  lemma SplitKey(first: string, rest: string)
    requires SlashFree(first)
    ensures Split("/" + first + "/" + rest, SLASH) == ["", first] + Split(rest, SLASH)
  {
    assert "/" + first + "/" + rest == "" + "/" + (first + "/" + rest);
    SplitSlash("", first + "/" + rest);
    SplitSlash(first, rest);
  }

  lemma ListOf(first: string, rest: string)
    requires SlashFree(first)
    ensures List("/" + first + "/" + rest) == [first] + Split(rest, SLASH)
  {
    SplitKey(first, rest);
  }

  lemma SplitMember(userID: string, rest: string)
    requires SlashFree(userID)
    ensures Split(MemberKey(userID, rest), SLASH) == ["", "group-member", userID] + Split(rest, SLASH)
  {
    var word := "group-member";
    assert MemberKey(userID, rest) == "/" + word + "/" + (userID + "/" + rest);
    SplitKey(word, userID + "/" + rest);
    SplitSlash(userID, rest);
  }

  /** The hook recovers user and group from a membership key. */
  lemma MemberKeyParses(userID: string, groupID: string)
    requires SlashFree(userID) && SlashFree(groupID)
    ensures IsMemberKey(MemberKey(userID, groupID)) && WellFormed(MemberKey(userID, groupID))
    ensures List(MemberKey(userID, groupID)) == ["group-member", userID, groupID]
  {
    var k := MemberKey(userID, groupID);
    SplitMember(userID, groupID);
    SplitSlash(groupID, "");
    assert k[..|MEMBER_PREFIX|] == MEMBER_PREFIX;
    FamiliesAreDisjoint(k);
  }

  /** The hook recovers the group from any key below a group's index, whatever slashes follow. */
  lemma IndexKeyParses(groupID: string, k: Key)
    requires SlashFree(groupID) && Under(k, INDEX_PREFIX + "/" + groupID)
    ensures IsIndexKey(k) && WellFormed(k) && List(k)[1] == groupID
    ensures k == IndexKey(groupID, k[|INDEX_PREFIX| + |groupID| + 2..])
  {
    var tag := k[|INDEX_PREFIX| + |groupID| + 2..];
    assert k == (INDEX_PREFIX + "/" + groupID + "/") + tag;
    assert k == "/" + "group-index" + "/" + (groupID + "/" + tag);
    ListOf("group-index", groupID + "/" + tag);
    SplitSlash(groupID, tag);
    assert k[..|INDEX_PREFIX|] == INDEX_PREFIX;
    FamiliesAreDisjoint(k);
  }

  lemma IndexKeyIsUnder(groupID: string, tag: string)
    ensures Under(IndexKey(groupID, tag), INDEX_PREFIX + "/" + groupID)
  {
    assert IndexKey(groupID, tag) == (INDEX_PREFIX + "/" + groupID + "/") + tag;
  }

  lemma MemberKeyIsUnder(userID: string, groupID: string)
    ensures Under(MemberKey(userID, groupID), MEMBER_PREFIX + "/" + userID)
  {
    assert MemberKey(userID, groupID) == (MEMBER_PREFIX + "/" + userID + "/") + groupID;
  }

  /** Below a user's membership prefix, the fourth element of the split key starts the group. */
  lemma UnderMember(userID: string, k: Key)
    requires SlashFree(userID) && Under(k, MEMBER_PREFIX + "/" + userID)
    ensures var rest := k[|MEMBER_PREFIX| + |userID| + 2..];
            k == MemberKey(userID, rest) && Split(k, SLASH) == ["", "group-member", userID] + Split(rest, SLASH)
  {
    var rest := k[|MEMBER_PREFIX| + |userID| + 2..];
    assert k == (MEMBER_PREFIX + "/" + userID + "/") + rest;
    SplitMember(userID, rest);
  }

  /** Distinct (group, tag) pairs have distinct keys, even when tags contain slashes. */
  lemma IndexKeysAreInjective(g: string, t: string, h: string, u: string)
    requires SlashFree(g) && SlashFree(h) && IndexKey(g, t) == IndexKey(h, u)
    ensures g == h && t == u
  {
    IndexKeyIsUnder(g, t);
    IndexKeyIsUnder(h, u);
    IndexKeyParses(g, IndexKey(g, t));
    IndexKeyParses(h, IndexKey(h, u));
    assert IndexKey(g, t)[|INDEX_PREFIX| + |g| + 2..] == t;
    assert IndexKey(h, u)[|INDEX_PREFIX| + |h| + 2..] == u;
  }

  lemma MemberKeysAreInjective(u: string, g: string, v: string, h: string)
    requires SlashFree(u) && SlashFree(g) && SlashFree(v) && SlashFree(h) && MemberKey(u, g) == MemberKey(v, h)
    ensures u == v && g == h
  {
    MemberKeyParses(u, g);
    MemberKeyParses(v, h);
    assert ["group-member", u, g][1] == u && ["group-member", u, g][2] == g;
  }

  lemma GroupKeysAreInjective(g: string, h: string)
    requires GroupKey(g) == GroupKey(h)
    ensures g == h
  {
    assert GroupKey(g)[|GROUP_PREFIX| + 1..] == g && GroupKey(h)[|GROUP_PREFIX| + 1..] == h;
  }

  // ---------- removal markers ----------

  predicate ColonFree(s: string) {
    ':' !in s
  }

  /** `rest` ends the string, has no colon, and follows a colon or is the whole string. */
  predicate FollowsLastColon(s: string, rest: string) {
    && ColonFree(rest) && |rest| <= |s| && s[|s| - |rest|..] == rest
    && (|rest| == |s| || s[|s| - |rest| - 1] == ':')
  }

  lemma {:induction false} AfterLastColonFollows(s: string)
    ensures FollowsLastColon(s, AfterLastColon(s))
  {
    if s == "" || s[|s| - 1] == ':' {
    } else {
      var before, rest := s[..|s| - 1], AfterLastColon(s[..|s| - 1]);
      AfterLastColonFollows(before);
      assert s[|s| - 1 - |rest|..] == before[|before| - |rest|..] + [s[|s| - 1]];
    }
  }

  lemma SuffixAt(s: string, b: string)
    requires |b| <= |s| && s[|s| - |b|..] == b
    ensures forall k :: |s| - |b| <= k < |s| ==> s[k] == b[k - (|s| - |b|)]
  {
  }

  lemma FollowsOnce(s: string, a: string, b: string)
    requires FollowsLastColon(s, a) && FollowsLastColon(s, b)
    ensures |a| >= |b|
  {
    SuffixAt(s, b);
  }

  lemma AfterLastColonIff(s: string, rest: string)
    ensures AfterLastColon(s) == rest <==> FollowsLastColon(s, rest)
  {
    AfterLastColonFollows(s);
    if FollowsLastColon(s, rest) {
      FollowsOnce(s, rest, AfterLastColon(s));
      FollowsOnce(s, AfterLastColon(s), rest);
    }
  }

  /** Deletions leave the same marker exactly if the names of their keys agree. */
  lemma MarkersAgreeIff(k: Key, l: Key)
    ensures RemovalMarker(k) == RemovalMarker(l) <==> Name(k) == Name(l)
  {
    var word := "removed ";
    assert (word + Name(k))[|word|..] == Name(k) && (word + Name(l))[|word|..] == Name(l);
  }

  /** In terms of the keys: exactly if their last elements agree after the last colon. */
  lemma {:induction false} MarkersCollideIff(dir: string, last: string, dir': string, last': string)
    requires SlashFree(last) && SlashFree(last')
    ensures RemovalMarker(dir + "/" + last) == RemovalMarker(dir' + "/" + last')
       <==> AfterLastColon(last) == AfterLastColon(last')
  {
    LastElement(dir, last);
    LastElement(dir', last');
    MarkersAgreeIff(dir + "/" + last, dir' + "/" + last');
  }

  /** What the marker is, from the key: the word, a space, and the last element from its last colon on. */
  lemma MarkerIs(dir: string, last: string, rest: string)
    requires SlashFree(last) && FollowsLastColon(last, rest)
    ensures RemovalMarker(dir + "/" + last) == "removed " + rest
    ensures RemovalMarker(dir + "/" + last) != rest && (ColonFree(last) ==> rest == last)
  {
    LastElement(dir, last);
    AfterLastColonIff(last, rest);
    if ColonFree(last) {
      AfterLastColonIff(last, last);
    }
    assert |"removed " + rest| > |rest|;
  }

  /** `NewKey` supplies a missing leading slash, and nothing else. */
  lemma NewKeyIs(path: string)
    ensures NewKey("/" + path) == "/" + path
    ensures path == "" || path[0] != '/' ==> NewKey(path) == "/" + path
  {
  }

  /** Neither the directories nor what stands before a colon matter. */
  lemma DifferentKeysOneMarker()
    ensures RemovalMarker("/a/x") == RemovalMarker("/b/x") == RemovalMarker("/p:x")
  {
    var a, b, root := "/a", "/b", "";
    assert "/a/x" == a + "/" + "x" && "/b/x" == b + "/" + "x" && "/p:x" == root + "/" + "p:x";
    AfterLastColonIff("x", "x");
    AfterLastColonIff("p:x", "x");
    MarkersCollideIff(a, "x", b, "x");
    MarkersCollideIff(b, "x", root, "p:x");
  }
}
