/** `find(...).sort({field: 'asc'}).limit(n)`: the first `n` records of a collection in ascending
    order of one string field. Ties are left in no particular order, as MongoDB leaves them. */
module Listing {
  import opened Base
  import opened Ordering

  /** A key of `candidates` whose sort field is least. */
  method Least<K>(m: map<K, string>, candidates: set<K>) returns (least: K)
    requires candidates != {} && candidates <= m.Keys
    ensures least in candidates
    ensures forall k :: k in candidates ==> Leq(m[least], m[k])
  {
    least :| least in candidates;
    var todo := candidates - {least};
    LeqReflexive(m[least]);
    while todo != {}
      invariant todo <= candidates && least in candidates
      invariant forall k :: k in candidates - todo ==> Leq(m[least], m[k])
      decreases |todo|
    {
      var k :| k in todo;
      if Less(m[k], m[least]) {
        LeqTotal(m[k], m[least]);
        forall j | j in candidates - todo
          ensures Leq(m[k], m[j])
        {
          LeqTransitive(m[k], m[least], m[j]);
        }
        LeqReflexive(m[k]);
        least := k;
      }
      todo := todo - {k};
    }
  }

  /** The keys of `m`, at most `limit` of them, in ascending order of their sort field: every key
      left out sorts no earlier than every key listed. */
  method SmallestFirst<K>(m: map<K, string>, limit: nat) returns (r: seq<K>)
    ensures |r| == Min(limit, |m|)
    ensures forall i :: 0 <= i < |r| ==> r[i] in m
    ensures forall i, j :: 0 <= i < j < |r| ==> r[i] != r[j]
    ensures forall i, j :: 0 <= i < j < |r| ==> Leq(m[r[i]], m[r[j]])
    ensures forall k, i :: k in m && k !in r && 0 <= i < |r| ==> Leq(m[r[i]], m[k])
  {
    var rest := m.Keys;
    r := [];
    while |r| < limit && rest != {}
      invariant rest <= m.Keys
      invariant |r| <= limit
      invariant forall i :: 0 <= i < |r| ==> r[i] in m && r[i] !in rest
      invariant forall k :: k in m ==> k in rest || k in r
      invariant forall i, j :: 0 <= i < j < |r| ==> r[i] != r[j]
      invariant forall i, j :: 0 <= i < j < |r| ==> Leq(m[r[i]], m[r[j]])
      invariant forall k, i :: k in rest && 0 <= i < |r| ==> Leq(m[r[i]], m[k])
      invariant |rest| + |r| == |m|
      decreases |rest|
    {
      var least := Least(m, rest);
      r := r + [least];
      rest := rest - {least};
    }
  }
}
