/** Row selection: what a query limited to its first row returns, ordered by primary key. */
module Keys {
  import opened Wrappers

  lemma {:induction false} SmallestExists(s: set<nat>, x: nat)
    requires x in s
    ensures exists m | m in s :: forall k | k in s :: m <= k
  {
    if y :| y in s && y < x {
      SmallestExists(s, y);
    }
  }

  function Smallest(s: set<nat>): (m: nat)
    requires s != {}
    ensures m in s && forall k | k in s :: m <= k
  {
    var x :| x in s;
    SmallestExists(s, x);
    var m :| m in s && forall k | k in s :: m <= k;
    m
  }

  function First(s: set<nat>): (r: Option<nat>)
    ensures r.None? <==> s == {}
    ensures r.Some? ==> r.value in s
  {
    if s == {} then None else Some(Smallest(s))
  }
}
