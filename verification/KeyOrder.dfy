/** The key order of `std::map<std::string, ...>`: the order in which the registries iterate. */
module KeyOrder {

  /** `a < b` for `std::string`: lexicographic. */
  predicate Below(a: string, b: string) {
    b != [] && (a == [] || a[0] < b[0] || (a[0] == b[0] && Below(a[1..], b[1..])))
  }

  /** The order is the lexicographic one: the smaller string is a proper prefix of the other, or has the
      smaller character where they first differ. */
  lemma {:induction false} BelowIsLexicographic(a: string, b: string)
    ensures Below(a, b) <==> (|a| < |b| && a == b[..|a|]) || exists i :: DifferAt(a, b, i) && a[i] < b[i]
  {
    if a != [] && b != [] {
      var a', b' := a[1..], b[1..];
      assert a == [a[0]] + a' && b == [b[0]] + b';
      if a[0] == b[0] {
        BelowIsLexicographic(a', b');
        assert |a| < |b| ==> (a == b[..|a|] <==> a' == b'[..|a'|]);
        forall i | DifferAt(a', b', i) ensures DifferAt(a, b, i + 1) {
          assert forall k | 0 < k < i + 1 :: a[k] == a'[k - 1] && b[k] == b'[k - 1];
        }
        if exists i :: DifferAt(a', b', i) && a'[i] < b'[i] {
          var i :| DifferAt(a', b', i) && a'[i] < b'[i];
          assert DifferAt(a, b, i + 1);
        }
        if exists i :: DifferAt(a, b, i) && a[i] < b[i] {
          var i :| DifferAt(a, b, i) && a[i] < b[i];
          assert DifferAt(a', b', i - 1);
        }
      } else {
        assert DifferAt(a, b, 0);
        assert forall i :: DifferAt(a, b, i) ==> i == 0;
        assert |a| < |b| ==> b[..|a|][0] == b[0];
      }
    }
  }

  /** The strings agree before place `i` and differ there. */
  predicate DifferAt(a: string, b: string, i: int) {
    0 <= i < |a| && i < |b| && a[i] != b[i] && forall k | 0 <= k < i :: a[k] == b[k]
  }

  lemma {:induction false} BelowIsTotal(a: string, b: string)
    ensures a == b || Below(a, b) || Below(b, a)
  {
    if a != [] && b != [] && a[0] == b[0] {
      BelowIsTotal(a[1..], b[1..]);
      assert a == [a[0]] + a[1..] && b == [b[0]] + b[1..];
    }
  }

  lemma {:induction false} BelowIsTransitive(a: string, b: string, c: string)
    requires Below(a, b) && Below(b, c)
    ensures Below(a, c)
  {
    if a != [] && a[0] == b[0] == c[0] {
      BelowIsTransitive(a[1..], b[1..], c[1..]);
    }
  }

  lemma {:induction false} BelowIsIrreflexive(a: string)
    ensures !Below(a, a)
  {
    if a != [] {
      BelowIsIrreflexive(a[1..]);
    }
  }

  predicate IsLeast(key: string, keys: set<string>) {
    key in keys && forall x | x in keys && x != key :: Below(key, x)
  }

  lemma {:induction false} LeastExists(keys: set<string>)
    requires keys != {}
    ensures exists key :: IsLeast(key, keys)
    decreases |keys|
  {
    var x :| x in keys;
    if keys == {x} {
      assert IsLeast(x, keys);
    } else {
      var rest := keys - {x};
      LeastExists(rest);
      var y :| IsLeast(y, rest);
      BelowIsTotal(x, y);
      if Below(x, y) {
        forall z | z in keys && z != x ensures Below(x, z) {
          if z != y { BelowIsTransitive(x, y, z); }
        }
        assert IsLeast(x, keys);
      } else {
        assert IsLeast(y, keys);
      }
    }
  }

  ghost predicate Ascending(keys: seq<string>) {
    forall i, j | 0 <= i < j < |keys| :: Below(keys[i], keys[j])
  }

  /** `listing` is what iterating a `std::map` with exactly these keys visits, in order. */
  ghost predicate Lists(listing: seq<string>, keys: set<string>) {
    Ascending(listing) && forall x :: x in listing <==> x in keys
  }

  /** There is only one such listing. */
  lemma {:induction false} ListingIsUnique(a: seq<string>, b: seq<string>, keys: set<string>)
    requires Lists(a, keys) && Lists(b, keys)
    ensures a == b
  {
    assert b == [] || b[0] in b;
    if a != [] {
      assert a[0] in b && b != [] && b[0] in a;
      HeadIsLeast(a, keys);
      HeadIsLeast(b, keys);
      BelowIsIrreflexive(a[0]);
      if a[0] != b[0] { BelowIsTransitive(a[0], b[0], a[0]); }
      TailLists(a, keys);
      TailLists(b, keys);
      ListingIsUnique(a[1..], b[1..], keys - {a[0]});
    }
  }

  lemma HeadIsLeast(a: seq<string>, keys: set<string>)
    requires a != [] && Lists(a, keys)
    ensures IsLeast(a[0], keys)
  {
  }

  lemma TailLists(a: seq<string>, keys: set<string>)
    requires a != [] && Lists(a, keys)
    ensures Lists(a[1..], keys - {a[0]})
  {
    BelowIsIrreflexive(a[0]);
    forall x | x in keys - {a[0]} ensures x in a[1..] {
      var i :| 0 <= i < |a| && a[i] == x;
      assert a[1..][i - 1] == x;
    }
  }

  lemma FrontLists(a: seq<string>, keys: set<string>)
    requires a != [] && Lists(a, keys)
    ensures var last := a[|a| - 1];
            Lists(a[..|a| - 1], keys - {last}) && forall x | x in keys - {last} :: Below(x, last)
  {
    var front, last := a[..|a| - 1], a[|a| - 1];
    BelowIsIrreflexive(last);
    forall x | x in keys - {last} ensures x in front && Below(x, last) {
      var i :| 0 <= i < |a| && a[i] == x;
      assert front[i] == x;
    }
  }

  lemma ExtendListing(a: seq<string>, keys: set<string>, key: string)
    requires Lists(a, keys)
    requires forall x | x in keys :: Below(x, key)
    ensures Lists(a + [key], keys + {key})
  {
  }

  /** The listing of a set of keys, as a function: used by the state machines. */
  ghost function InOrder(keys: set<string>): (listing: seq<string>)
    ensures Lists(listing, keys)
    decreases |keys|
  {
    if keys == {} then []
    else
      LeastExists(keys);
      var least :| IsLeast(least, keys);
      var rest := InOrder(keys - {least});
      PrependLeast(least, keys, rest);
      [least] + rest
  }

  lemma PrependLeast(least: string, keys: set<string>, rest: seq<string>)
    requires IsLeast(least, keys) && Lists(rest, keys - {least})
    ensures Lists([least] + rest, keys)
  {
    var all := [least] + rest;
    forall i, j | 0 <= i < j < |all| ensures Below(all[i], all[j]) {
      assert all[j] == rest[j - 1] && rest[j - 1] in rest;
    }
    forall x | x in keys ensures x in all {
      if x == least { assert all[0] == x; }
      else { assert x in rest; var i :| 0 <= i < |rest| && rest[i] == x; assert all[i + 1] == x; }
    }
  }
}
