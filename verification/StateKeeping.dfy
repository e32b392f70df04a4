/** The two places where a repository keeps filters: one file for the global filter, one for the
    filters of all groups. */
module StateKeeping {
  import opened Wrappers
  import opened Bloom

  datatype GroupState = GroupState(filter: Filter, membership: bool)

  type GroupStates = map<string, GroupState>

  function FilterOf(states: GroupStates, name: string): Filter {
    if name in states then states[name].filter else EMPTY
  }

  /** A new group starts with an empty filter. */
  ghost function AddOrUpdate(hash: TagHash, states: GroupStates, name: string, membership: bool,
                             tags: set<string>): GroupStates {
    states[name := GroupState(FilterOf(states, name) + Bits(hash, tags), membership)]
  }

  /** What an update leaves: the group's own bits and those of the tags, the membership given, and every
      other group as it was. */
  lemma AddOrUpdateMeans(hash: TagHash, states: GroupStates, name: string, membership: bool, tags: set<string>)
    ensures var after := AddOrUpdate(hash, states, name, membership, tags);
            && after.Keys == states.Keys + {name}
            && after[name].membership == membership
            && (forall n :: n in states && n != name ==> after[n] == states[n])
            && (forall p :: p in after[name].filter <==>
                (name in states && p in states[name].filter)
                || exists t, k: nat :: t in tags && k < 5 && p == hash(t, k) % 2000)
  {
    var after := AddOrUpdate(hash, states, name, membership, tags);
    forall p ensures p in Bits(hash, tags) <==> exists t, k: nat :: t in tags && k < 5 && p == hash(t, k) % 2000 {
      if p in Bits(hash, tags) {
        var t :| t in tags && p in Positions(hash, t);
        var k: nat :| k < 5 && p == hash(t, k) % 2000;
      }
      if exists t, k: nat :: t in tags && k < 5 && p == hash(t, k) % 2000 {
        var t, k: nat :| t in tags && k < 5 && p == hash(t, k) % 2000;
        assert p in Positions(hash, t);
      }
    }
  }

  lemma OneMoreBit(hash: TagHash, tags: seq<string>, i: nat)
    requires i < |tags|
    ensures Bits(hash, Elements(tags[..i + 1])) == Bits(hash, Elements(tags[..i])) + Positions(hash, tags[i])
  {
    assert Elements(tags[..i + 1]) == Elements(tags[..i]) + {tags[i]};
    BitsOfUnion(hash, Elements(tags[..i]), {tags[i]});
    BitsOfOne(hash, tags[i]);
  }

  ghost function Elements(s: seq<string>): set<string> {
    set t | t in s
  }

  /** The states after the deltas, assembled. */
  lemma Assembled(hash: TagHash, before: GroupStates, states: GroupStates, name: string, membership: bool,
                  tags: set<string>)
    requires states.Keys == before.Keys + {name}
    requires forall n :: n in before && n != name ==> states[n] == before[n]
    requires states[name].filter == FilterOf(before, name) + Bits(hash, tags)
    ensures states[name := states[name].(membership := membership)] == AddOrUpdate(hash, before, name, membership, tags)
  {
  }

  class StateKeeper {
    const hash: TagHash
    var states: GroupStates
    var file: Option<GroupStates>

    /** `LoadStateKeeper`: a missing file is created empty. */
    constructor Load(hash: TagHash, file: Option<GroupStates>)
      ensures this.hash == hash && this.file == Some(states)
      ensures states == if file.Some? then file.value else map[]
    {
      this.hash := hash;
      states, this.file := map[], None;
      new;
      if file.None? {
        this.file := Some(states);
        return;
      }
      this.file := file;
      states := file.value;
    }

    method SaveStates()
      modifies this`file
      ensures file == Some(states)
    {
      file := Some(states);
    }

    /** The filter is filled delta by delta, the membership set, and everything saved. */
    method AddOrUpdateState(name: string, membership: bool, deltas: seq<string>) returns (filter: Filter)
      modifies this
      ensures states == AddOrUpdate(hash, old(states), name, membership, Elements(deltas))
      ensures file == Some(states) && filter == states[name].filter
    {
      if name !in states {
        states := states[name := GroupState(EMPTY, false)];
      }
      ghost var before, member := old(states), states[name].membership;
      BitsOfNone(hash);
      assert Elements(deltas[..0]) == {};
      for i := 0 to |deltas|
        invariant states.Keys == before.Keys + {name}
        invariant forall n :: n in before && n != name ==> states[n] == before[n]
        invariant states[name] == GroupState(FilterOf(before, name) + Bits(hash, Elements(deltas[..i])), member)
      {
        var v := deltas[i];
        OneMoreBit(hash, deltas, i);
        states := states[name := states[name].(filter := Add(hash, states[name].filter, v))];
      }
      assert deltas[..|deltas|] == deltas;
      Assembled(hash, before, states, name, membership, Elements(deltas));
      states := states[name := states[name].(membership := membership)];
      SaveStates();
      filter := states[name].filter;
    }

    method GetState(name: string) returns (state: Option<GroupState>)
      ensures state == if name in states then Some(states[name]) else None
    {
      if name !in states {
        return None;
      }
      state := Some(states[name]);
    }
  }

  /** The part of the repository that holds the global filter. */
  class FsRepo {
    var state: Filter
    var stateFile: Option<Filter>

    /** `openState`: a missing file is initialised with an empty filter and read back. */
    constructor Open(stateFile: Option<Filter>)
      ensures this.stateFile == Some(state)
      ensures state == if stateFile.Some? then stateFile.value else EMPTY
    {
      this.stateFile := if stateFile.None? then Some(EMPTY) else stateFile;
      state := if stateFile.None? then EMPTY else stateFile.value;
    }

    /** `State().Add`. */
    method Add(hash: TagHash, tag: string)
      modifies this`state
      ensures state == Bloom.Add(hash, old(state), tag)
    {
      state := Bloom.Add(hash, state, tag);
    }

    /** `SetState`: the file is rewritten from the filter in memory. */
    method SetState()
      modifies this`stateFile
      ensures stateFile == Some(state)
    {
      stateFile := Some(state);
    }
  }
}
