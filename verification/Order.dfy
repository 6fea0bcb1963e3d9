/** sort.Strings: the order of strings, and a set of strings listed in that order. */
module Order {

  /** Lexicographic, strict. */
  predicate Before(s: string, t: string) {
    t != "" && (s == "" || s[0] < t[0] || (s[0] == t[0] && Before(s[1..], t[1..])))
  }

  /** They agree on the first `k` characters; then one ends, or its next character is the smaller one. */
  predicate DiffersAt(s: string, t: string, k: nat) {
    k <= |s| && k < |t| && s[..k] == t[..k] && (k == |s| || s[k] < t[k])
  }

  lemma {:induction false} BeforeMeans(s: string, t: string)
    ensures Before(s, t) <==> exists k: nat :: DiffersAt(s, t, k)
  {
    assert t != "" && (s == "" || s[0] < t[0]) ==> DiffersAt(s, t, 0);
    if s != "" && t != "" && s[0] == t[0] {
      BeforeMeans(s[1..], t[1..]);
      if k: nat :| DiffersAt(s, t, k) {
        assert s[1..][..k - 1] == s[..k][1..] && t[1..][..k - 1] == t[..k][1..];
        assert DiffersAt(s[1..], t[1..], k - 1);
      }
      if k: nat :| DiffersAt(s[1..], t[1..], k) {
        var n := k + 1;
        assert s[..n] == [s[0]] + s[1..][..k] && t[..n] == [t[0]] + t[1..][..k];
        assert DiffersAt(s, t, n);
      }
    } else if k: nat :| DiffersAt(s, t, k) {
      DiffersHead(s, t, k);
    }
  }

  lemma DiffersHead(s: string, t: string, k: nat)
    requires DiffersAt(s, t, k)
    ensures k > 0 ==> s != "" && s[0] == t[0]
    ensures k == 0 ==> s == "" || s[0] < t[0]
  {
    if k > 0 {
      assert s[..k][0] == s[0] && t[..k][0] == t[0];
    }
  }

  lemma {:induction false} Asymmetric(s: string, t: string)
    requires Before(s, t)
    ensures !Before(t, s) && s != t
  {
    if s != "" && s[0] == t[0] {
      Asymmetric(s[1..], t[1..]);
    }
  }

  lemma {:induction false} Transitive(s: string, t: string, u: string)
    requires Before(s, t) && Before(t, u)
    ensures Before(s, u)
  {
    if s != "" && s[0] == t[0] == u[0] {
      Transitive(s[1..], t[1..], u[1..]);
    }
  }

  lemma {:induction false} Total(s: string, t: string)
    ensures s == t || Before(s, t) || Before(t, s)
  {
    if s != "" && t != "" && s[0] == t[0] {
      Total(s[1..], t[1..]);
      assert s == [s[0]] + s[1..] && t == [t[0]] + t[1..];
    }
  }

  predicate Ascending(ps: seq<string>) {
    forall i, j :: 0 <= i < j < |ps| ==> Before(ps[i], ps[j])
  }

  predicate SameElements(ps: seq<string>, keys: set<string>) {
    (forall p :: p in ps ==> p in keys) && (forall p :: p in keys ==> p in ps)
  }

  /** `ps` holds every element of `keys` once, in order. */
  predicate IsListing(ps: seq<string>, keys: set<string>) {
    Ascending(ps) && SameElements(ps, keys)
  }

  /** A set has one listing at most. */
  lemma {:induction false} ListingUnique(ps: seq<string>, qs: seq<string>, keys: set<string>)
    requires IsListing(ps, keys) && IsListing(qs, keys)
    ensures ps == qs
    decreases |ps|
  {
    hide Before;
    if ps == [] {
      if qs != [] {
        HeadIsElement(qs);
      }
    } else {
      assert ps[0] in qs && qs[0] in ps;
      FirstIsLeast(ps, qs[0]);
      FirstIsLeast(qs, ps[0]);
      if ps[0] != qs[0] {
        Asymmetric(ps[0], qs[0]);
      }
      ListingRest(ps, keys);
      ListingRest(qs, keys);
      ListingUnique(ps[1..], qs[1..], keys - {ps[0]});
      assert ps == [ps[0]] + ps[1..] && qs == [qs[0]] + qs[1..];
    }
  }

  lemma HeadIsElement(ps: seq<string>)
    requires ps != []
    ensures exists p :: p in ps
  {
    assert ps[0] in ps;
  }

  lemma FirstIsLeast(ps: seq<string>, p: string)
    requires ps != [] && Ascending(ps) && p in ps
    ensures p == ps[0] || Before(ps[0], p)
  {
    hide Before;
  }

  lemma ListingRest(ps: seq<string>, keys: set<string>)
    requires ps != [] && IsListing(ps, keys)
    ensures IsListing(ps[1..], keys - {ps[0]})
  {
    assert ps == [ps[0]] + ps[1..];
    forall p | p in ps[1..]
      ensures p in keys - {ps[0]}
    {
      var i :| 1 <= i < |ps| && ps[i] == p;
      Asymmetric(ps[0], ps[i]);
    }
    hide Before;
  }

  /** `ps` with `p` put in its place. */
  function Insert(ps: seq<string>, p: string): seq<string> {
    if ps == [] || Before(p, ps[0]) then [p] + ps else [ps[0]] + Insert(ps[1..], p)
  }

  lemma {:induction false} InsertHolds(ps: seq<string>, p: string, q: string)
    ensures q in Insert(ps, p) <==> q == p || q in ps
  {
    hide Before;
    if ps != [] && !Before(p, ps[0]) {
      InsertHolds(ps[1..], p, q);
      assert ps == [ps[0]] + ps[1..];
    }
  }

  lemma {:induction false} InsertAscending(ps: seq<string>, p: string)
    requires Ascending(ps) && p !in ps
    ensures Ascending(Insert(ps, p))
  {
    if ps == [] {
    } else if Before(p, ps[0]) {
      forall j | 0 <= j < |ps|
        ensures Before(p, ps[j])
      {
        if j > 0 {
          Transitive(p, ps[0], ps[j]);
        }
      }
      hide Before;
    } else {
      InsertAscending(ps[1..], p);
      var rest := Insert(ps[1..], p);
      forall q | q in rest
        ensures Before(ps[0], q)
      {
        InsertHolds(ps[1..], p, q);
        Total(p, ps[0]);
      }
      hide Before, Insert;
      assert Insert(ps, p) == [ps[0]] + rest by {
        InsertLater(ps, p);
      }
    }
  }

  lemma InsertLater(ps: seq<string>, p: string)
    requires ps != [] && !Before(p, ps[0])
    ensures Insert(ps, p) == [ps[0]] + Insert(ps[1..], p)
  {
    hide Before;
  }

  lemma InsertListing(ps: seq<string>, keys: set<string>, p: string)
    requires IsListing(ps, keys) && p !in keys
    ensures IsListing(Insert(ps, p), keys + {p})
  {
    InsertAscending(ps, p);
    forall q
      ensures q in Insert(ps, p) <==> q == p || q in ps
    {
      InsertHolds(ps, p, q);
    }
    hide Insert, Before;
  }

  lemma {:induction false} ListingExists(keys: set<string>)
    ensures exists ps :: IsListing(ps, keys)
  {
    hide IsListing;
    if keys == {} {
      assert IsListing([], keys) by {
        EmptyListing();
      }
    } else {
      var p :| p in keys;
      ListingExists(keys - {p});
      var ps :| IsListing(ps, keys - {p});
      InsertListing(ps, keys - {p}, p);
      assert keys - {p} + {p} == keys;
    }
  }

  lemma EmptyListing()
    ensures IsListing([], {})
  {}

  /** The listing of a set. */
  ghost function Listing(keys: set<string>): (ps: seq<string>)
    ensures IsListing(ps, keys)
  {
    ListingExists(keys);
    hide IsListing;
    var ps :| IsListing(ps, keys);
    ps
  }

  /** Collecting the keys of a map in any order, then sort.Strings. */
  method Sorted(keys: set<string>) returns (ps: seq<string>)
    ensures ps == Listing(keys)
  {
    ps := [];
    var rest := keys;
    ghost var listed := {};
    while rest != {}
      invariant listed !! rest && listed + rest == keys
      invariant IsListing(ps, listed)
    {
      var p :| p in rest;
      InsertListing(ps, listed, p);
      ps := Insert(ps, p);
      listed := listed + {p};
      rest := rest - {p};
    }
    ListingUnique(ps, Listing(keys), keys);
  }
}
