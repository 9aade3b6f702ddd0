/**
 * `sorted(d)` for a dictionary whose keys are strings: Python 2 orders `str`
 * values lexicographically by character, a proper prefix first.
 */
module KeyOrder {

  /** Python's `a < b` on strings. */
  predicate Less(a: string, b: string) {
    if a == [] then b != []
    else if b == [] then false
    else a[0] < b[0] || (a[0] == b[0] && Less(a[1..], b[1..]))
  }

  lemma {:induction false} LessIrreflexive(a: string)
    ensures !Less(a, a)
  {
    if a != [] {
      LessIrreflexive(a[1..]);
    }
  }

  lemma {:induction false} LessTransitive(a: string, b: string, c: string)
    requires Less(a, b) && Less(b, c)
    ensures Less(a, c)
  {
    if a != [] && b != [] && c != [] && a[0] == b[0] == c[0] {
      LessTransitive(a[1..], b[1..], c[1..]);
    }
  }

  lemma {:induction false} LessTotal(a: string, b: string)
    ensures a == b || Less(a, b) || Less(b, a)
  {
    if a != [] && b != [] && a[0] == b[0] {
      LessTotal(a[1..], b[1..]);
      if a[1..] == b[1..] {
        assert a == [a[0]] + a[1..] && b == [b[0]] + b[1..];
      }
    }
  }

  /** Under `Less`, two different strings are ordered exactly one way. */
  lemma LessAsymmetric(a: string, b: string)
    requires Less(a, b)
    ensures !Less(b, a) && a != b
  {
    LessIrreflexive(a);
    if Less(b, a) {
      LessTransitive(a, b, a);
    }
  }

  predicate IsMinimum(m: string, keys: set<string>) {
    m in keys && forall k :: k in keys ==> !Less(k, m)
  }

  lemma {:induction false} MinimumExists(keys: set<string>)
    requires keys != {}
    ensures exists m :: IsMinimum(m, keys)
    decreases |keys|
  {
    var x :| x in keys;
    if keys != {x} {
      var others := keys - {x};
      MinimumExists(others);
      var m :| IsMinimum(m, others);
      if Less(x, m) {
        LessIrreflexive(x);
        forall k | k in keys ensures !Less(k, x) {
          if k != x && Less(k, x) {
            LessTransitive(k, x, m);
          }
        }
        assert IsMinimum(x, keys);
      } else {
        LessIrreflexive(m);
        assert IsMinimum(m, keys);
      }
    } else {
      LessIrreflexive(x);
      assert IsMinimum(x, keys);
    }
  }

  lemma MinimumUnique(m: string, n: string, keys: set<string>)
    requires IsMinimum(m, keys) && IsMinimum(n, keys)
    ensures m == n
  {
    LessTotal(m, n);
  }

  /** The keys in increasing order, each once: what `sorted(d)` lists. */
  ghost function SortedListing(keys: set<string>): seq<string>
    decreases |keys|
  {
    if keys == {} then []
    else
      MinimumExists(keys);
      var m :| IsMinimum(m, keys);
      [m] + SortedListing(keys - {m})
  }

  ghost predicate StrictlyIncreasing(s: seq<string>) {
    forall i, j :: 0 <= i < j < |s| ==> Less(s[i], s[j])
  }

  /** A listing starts with the minimum key and goes on with the other keys. */
  lemma SortedListingUnfold(keys: set<string>, m: string)
    requires IsMinimum(m, keys)
    ensures SortedListing(keys) == [m] + SortedListing(keys - {m})
  {
    var h := SortedListing(keys)[0];
    assert IsMinimum(h, keys) && SortedListing(keys) == [h] + SortedListing(keys - {h});
    MinimumUnique(h, m, keys);
  }

  /**
   * `sorted` lists every key once, nothing else, and in strictly increasing
   * order.
   */
  lemma {:induction false} SortedListingSpec(keys: set<string>)
    ensures var r := SortedListing(keys);
      StrictlyIncreasing(r) && |r| == |keys| && forall x :: x in r <==> x in keys
    decreases |keys|
  {
    if keys != {} {
      MinimumExists(keys);
      var m :| IsMinimum(m, keys);
      SortedListingUnfold(keys, m);
      var rest := SortedListing(keys - {m});
      SortedListingSpec(keys - {m});
      var r := [m] + rest;
      forall i, j | 0 <= i < j < |r| ensures Less(r[i], r[j]) {
        if i == 0 {
          assert r[j] == rest[j - 1] && r[j] in keys - {m};
          LessTotal(m, r[j]);
        } else {
          assert r[i] == rest[i - 1] && r[j] == rest[j - 1];
        }
      }
    }
  }

  /** Two strictly increasing listings of the same keys are the same. */
  lemma SortedListingUnique(s: seq<string>, keys: set<string>)
    requires StrictlyIncreasing(s) && forall x :: x in s <==> x in keys
    ensures s == SortedListing(keys)
    decreases |s|
  {
    if s == [] {
      assert keys == {};
    } else {
      var m := s[0];
      forall k | k in keys ensures !Less(k, m) {
        var i :| 0 <= i < |s| && s[i] == k;
        if i > 0 {
          LessAsymmetric(m, k);
        } else {
          LessIrreflexive(m);
        }
      }
      SortedListingUnfold(keys, m);
      forall x ensures x in s[1..] <==> x in keys - {m} {
        if x in s[1..] {
          var i :| 1 <= i < |s| && s[i] == x;
          LessAsymmetric(m, x);
        }
        if x in keys - {m} {
          var i :| 0 <= i < |s| && s[i] == x;
          assert i != 0;
          assert s[1..][i - 1] == x;
        }
      }
      SortedListingUnique(s[1..], keys - {m});
    }
  }

  /** `sorted(d)`: the keys of a dictionary, in increasing order. */
  method SortKeys(keys: set<string>) returns (names: seq<string>)
    ensures StrictlyIncreasing(names) && |names| == |keys|
    ensures forall x :: x in names <==> x in keys
    ensures names == SortedListing(keys)
  {
    names := [];
    var rest := keys;
    while rest != {}
      invariant names + SortedListing(rest) == SortedListing(keys)
      decreases |rest|
    {
      MinimumExists(rest);
      var m :| IsMinimum(m, rest);
      SortedListingUnfold(rest, m);
      ghost var tail := SortedListing(rest - {m});
      assert names + ([m] + tail) == (names + [m]) + tail;
      names := names + [m];
      rest := rest - {m};
    }
    assert SortedListing(rest) == [];
    assert names == SortedListing(keys);
    SortedListingSpec(keys);
  }
}
