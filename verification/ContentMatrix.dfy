/** The record a node keeps of each content hash it downloads. */
module ContentMatrix {
  type Hash = string
  type PeerId = string

  datatype Content = Content(tag: string, size: int, avgSpeed: real, startedAt: int, finishedAt: int,
                             providedBy: seq<PeerId>)

  type Contents = map<Hash, Content>

  const NEW_CONTENT := Content("", 0, 0.0, 0, 0, [])

  function NewContent(m: Contents, hash: Hash): Contents {
    if hash in m then m else m[hash := NEW_CONTENT]
  }

  function AddProvider(m: Contents, hash: Hash, provider: PeerId): Contents
    requires hash in m
  {
    if provider in m[hash].providedBy then m
    else m[hash := m[hash].(providedBy := m[hash].providedBy + [provider])]
  }

  function AddProviders(m: Contents, hash: Hash, providers: seq<PeerId>): (r: Contents)
    requires hash in m
    ensures r.Keys == m.Keys
    ensures forall h :: h in m ==> r[h].finishedAt == m[h].finishedAt && r[h].tag == m[h].tag
  {
    if providers == [] then m
    else AddProvider(AddProviders(m, hash, providers[..|providers| - 1]), hash, providers[|providers| - 1])
  }

  function Started(m: Contents, hash: Hash, tag: string, size: int, now: int): Contents
    requires hash in m
  {
    m[hash := m[hash].(tag := tag, startedAt := now, size := size)]
  }

  function SizeInMB(size: int): real {
    size as real / (1024 * 1024) as real
  }

  function Finished(m: Contents, hash: Hash, now: int): Contents
    requires hash in m
  {
    var c := m[hash];
    var timeConsumed := if now == c.startedAt then 1 else now - c.startedAt;
    m[hash := c.(finishedAt := now, avgSpeed := SizeInMB(c.size) / timeConsumed as real)]
  }

  /** A provider is listed once per hash, in the order in which providers were first added. */
  lemma {:induction false} ProvidersAreDistinct(m: Contents, hash: Hash, providers: seq<PeerId>)
    requires hash in m
    requires forall i, j :: 0 <= i < j < |m[hash].providedBy| ==> m[hash].providedBy[i] != m[hash].providedBy[j]
    ensures var ps := AddProviders(m, hash, providers)[hash].providedBy;
            && m[hash].providedBy <= ps
            && (forall i, j :: 0 <= i < j < |ps| ==> ps[i] != ps[j])
            && (forall p :: p in ps <==> p in m[hash].providedBy || p in providers)
  {
    if providers == [] {
    } else {
      ProvidersAreDistinct(m, hash, providers[..|providers| - 1]);
      assert providers == providers[..|providers| - 1] + [providers[|providers| - 1]];
    }
  }
}
