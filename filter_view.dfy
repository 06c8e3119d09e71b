/**
 * The filter view (App.tsx, `uniqueMachines`, `uniquePartNames`, `filteredParts`):
 * the two facet lists offered by the filter controls, and the visible subset.
 */
module FilterView {
  import opened PartTypes

  // ---------------------------------------------------------------------------
  // String order used by `Array.prototype.sort`
  // ---------------------------------------------------------------------------

  /** Strict lexicographic order on strings, character by character; a proper prefix comes first. */
  predicate Below(a: string, b: string)
    decreases |a|
  {
    if a == [] then b != []
    else b != [] && (a[0] < b[0] || (a[0] == b[0] && Below(a[1..], b[1..])))
  }

  lemma {:induction false} BelowIrreflexive(a: string)
    ensures !Below(a, a)
    decreases |a|
  {
    if a != [] {
      BelowIrreflexive(a[1..]);
    }
  }

  lemma {:induction false} BelowTransitive(a: string, b: string, c: string)
    requires Below(a, b) && Below(b, c)
    ensures Below(a, c)
    decreases |a|
  {
    if a != [] && a[0] == b[0] && b[0] == c[0] {
      BelowTransitive(a[1..], b[1..], c[1..]);
    }
  }

  lemma {:induction false} BelowTotal(a: string, b: string)
    requires a != b
    ensures Below(a, b) || Below(b, a)
    decreases |a|
  {
    if a != [] && b != [] && a[0] == b[0] {
      assert a == [a[0]] + a[1..] && b == [b[0]] + b[1..];
      BelowTotal(a[1..], b[1..]);
    }
  }

  /** Every earlier element is below every later one. */
  predicate StrictlyAscending(s: seq<string>) {
    forall i, j :: 0 <= i < j < |s| ==> Below(s[i], s[j])
  }

  /** A strictly ascending list has no duplicates. */
  lemma AscendingDistinct(s: seq<string>)
    requires StrictlyAscending(s)
    ensures forall i, j :: 0 <= i < |s| && 0 <= j < |s| && i != j ==> s[i] != s[j]
  {
    forall i, j | 0 <= i < |s| && 0 <= j < |s| && i != j
      ensures s[i] != s[j]
    {
      if i < j {
        if s[i] == s[j] { BelowIrreflexive(s[i]); }
      } else {
        if s[i] == s[j] { BelowIrreflexive(s[j]); }
      }
    }
  }

  /** A strictly ascending list is determined by its elements: sorting a set has one outcome. */
  lemma {:induction false} AscendingUnique(s: seq<string>, t: seq<string>)
    requires StrictlyAscending(s) && StrictlyAscending(t)
    requires forall x :: x in s <==> x in t
    ensures s == t
    decreases |s|
  {
    if s != [] && t != [] {
      // The heads are the least elements of the same set.
      assert s[0] in t && t[0] in s;
      if s[0] != t[0] {
        var j :| 0 <= j < |t| && t[j] == s[0];
        var i :| 0 <= i < |s| && s[i] == t[0];
        BelowTransitive(s[0], t[0], s[0]);
        BelowIrreflexive(s[0]);
        assert false;
      }
      AscendingDistinct(s);
      AscendingDistinct(t);
      forall x ensures x in s[1..] <==> x in t[1..] {
        TailMembership(s, x);
        TailMembership(t, x);
      }
      AscendingUnique(s[1..], t[1..]);
      assert s == [s[0]] + s[1..] && t == [t[0]] + t[1..];
    } else if s != [] {
      HeadIsElement(s);
      assert false;
    } else if t != [] {
      HeadIsElement(t);
      assert false;
    }
  }

  lemma HeadIsElement(s: seq<string>)
    requires s != []
    ensures s[0] in s
  {
  }

  /** In a list without duplicates, the tail holds exactly the elements other than the head. */
  lemma TailMembership(s: seq<string>, x: string)
    requires s != []
    requires forall i, j :: 0 <= i < |s| && 0 <= j < |s| && i != j ==> s[i] != s[j]
    ensures x in s[1..] <==> x in s && x != s[0]
  {
    assert s == [s[0]] + s[1..];
    if x in s[1..] {
      var k :| 0 <= k < |s[1..]| && s[1..][k] == x;
      assert s[k + 1] == x;
    }
  }

  /** Putting an element below everything in front of an ascending list keeps it ascending. */
  lemma ConsAscending(x: string, s: seq<string>)
    requires StrictlyAscending(s)
    requires forall j :: 0 <= j < |s| ==> Below(x, s[j])
    ensures StrictlyAscending([x] + s)
  {
    var r := [x] + s;
    forall i, j | 0 <= i < j < |r| ensures Below(r[i], r[j]) {
      assert r[j] == s[j - 1];
      if i > 0 { assert r[i] == s[i - 1]; }
    }
  }

  /** Inserts `x` into an ascending list unless it is already there. */
  function Insert(x: string, s: seq<string>): (r: seq<string>)
    requires StrictlyAscending(s)
    ensures StrictlyAscending(r)
    ensures forall y :: y in r <==> y == x || y in s
    decreases |s|
  {
    if s == [] then [x]
    else if x == s[0] then s
    else if Below(x, s[0]) then
      assert forall j :: 0 <= j < |s| ==> Below(x, s[j]) by {
        forall j | 0 <= j < |s| ensures Below(x, s[j]) {
          if j > 0 { BelowTransitive(x, s[0], s[j]); }
        }
      }
      ConsAscending(x, s);
      [x] + s
    else
      BelowTotal(x, s[0]);
      var rest := Insert(x, s[1..]);
      assert StrictlyAscending(s[1..]);
      assert forall j :: 0 <= j < |rest| ==> Below(s[0], rest[j]) by {
        forall j | 0 <= j < |rest| ensures Below(s[0], rest[j]) {
          assert rest[j] in rest;
          if rest[j] != x {
            var k :| 0 <= k < |s[1..]| && s[1..][k] == rest[j];
            assert s[k + 1] == rest[j];
          }
        }
      }
      ConsAscending(s[0], rest);
      [s[0]] + rest
  }

  /** The distinct values of `xs`, sorted ascending (`Array.from(new Set(xs)).sort()`). */
  function SortedDistinct(xs: seq<string>): (r: seq<string>)
    ensures StrictlyAscending(r)
    ensures forall y :: y in r <==> y in xs
    decreases |xs|
  {
    if xs == [] then []
    else Insert(xs[|xs| - 1], SortedDistinct(xs[..|xs| - 1]))
  }

  // ---------------------------------------------------------------------------
  // Facets
  // ---------------------------------------------------------------------------

  function MachineIds(ps: seq<Part>): seq<string> {
    seq(|ps|, i requires 0 <= i < |ps| => ps[i].machineId)
  }

  function PartNames(ps: seq<Part>): seq<string> {
    seq(|ps|, i requires 0 <= i < |ps| => ps[i].name)
  }

  /** The machine facet: strictly ascending, and holding exactly the machine ids in use. */
  function UniqueMachines(ps: seq<Part>): (r: seq<string>)
    ensures StrictlyAscending(r)
    ensures forall m :: m in r <==> exists i :: 0 <= i < |ps| && ps[i].machineId == m
  {
    var ms := MachineIds(ps);
    assert forall m :: m in ms <==> exists i :: 0 <= i < |ps| && ps[i].machineId == m by {
      forall m | exists i :: 0 <= i < |ps| && ps[i].machineId == m ensures m in ms {
        var i :| 0 <= i < |ps| && ps[i].machineId == m;
        assert ms[i] == m;
      }
    }
    SortedDistinct(ms)
  }

  /** The part-name facet: strictly ascending, and holding exactly the names in use. */
  function UniquePartNames(ps: seq<Part>): (r: seq<string>)
    ensures StrictlyAscending(r)
    ensures forall n :: n in r <==> exists i :: 0 <= i < |ps| && ps[i].name == n
  {
    var ns := PartNames(ps);
    assert forall n :: n in ns <==> exists i :: 0 <= i < |ps| && ps[i].name == n by {
      forall n | exists i :: 0 <= i < |ps| && ps[i].name == n ensures n in ns {
        var i :| 0 <= i < |ps| && ps[i].name == n;
        assert ns[i] == n;
      }
    }
    SortedDistinct(ns)
  }

  /** Facets do not depend on the order of the inventory, only on the values in it. */
  lemma FacetsAreCanonical(ps: seq<Part>, qs: seq<Part>)
    requires forall p :: p in ps <==> p in qs
    ensures UniqueMachines(ps) == UniqueMachines(qs)
    ensures UniquePartNames(ps) == UniquePartNames(qs)
  {
    var a, b := UniqueMachines(ps), UniqueMachines(qs);
    forall m ensures m in a <==> m in b {
      if m in a {
        var i :| 0 <= i < |ps| && ps[i].machineId == m;
        assert ps[i] in qs;
      }
      if m in b {
        var i :| 0 <= i < |qs| && qs[i].machineId == m;
        assert qs[i] in ps;
      }
    }
    AscendingUnique(a, b);
    var c, d := UniquePartNames(ps), UniquePartNames(qs);
    forall n ensures n in c <==> n in d {
      if n in c {
        var i :| 0 <= i < |ps| && ps[i].name == n;
        assert ps[i] in qs;
      }
      if n in d {
        var i :| 0 <= i < |qs| && qs[i].name == n;
        assert qs[i] in ps;
      }
    }
    AscendingUnique(c, d);
  }

  // ---------------------------------------------------------------------------
  // Filter
  // ---------------------------------------------------------------------------

  /** A part passes when each selection is the sentinel or equals the part's value. */
  function Matches(p: Part, machine: string, name: string): (b: bool)
    ensures machine == ALL && name == ALL ==> b
    ensures machine != ALL && p.machineId != machine ==> !b
    ensures name != ALL && p.name != name ==> !b
  {
    (machine == ALL || p.machineId == machine) && (name == ALL || p.name == name)
  }

  /** The visible parts, in inventory order. */
  function FilterParts(ps: seq<Part>, machine: string, name: string): (r: seq<Part>)
    ensures |r| <= |ps|
    ensures forall p :: p in r <==> p in ps && Matches(p, machine, name)
    decreases |ps|
  {
    if ps == [] then []
    else (if Matches(ps[0], machine, name) then [ps[0]] else []) + FilterParts(ps[1..], machine, name)
  }

  /** `r` is obtained from `s` by deleting elements, keeping the order of the rest. */
  ghost predicate Subsequence(r: seq<Part>, s: seq<Part>)
    decreases |s|
  {
    if r == [] then true
    else if s == [] then false
    else (r[0] == s[0] && Subsequence(r[1..], s[1..])) || Subsequence(r, s[1..])
  }

  lemma {:induction false} FilterIsSubsequence(ps: seq<Part>, machine: string, name: string)
    ensures Subsequence(FilterParts(ps, machine, name), ps)
    decreases |ps|
  {
    if ps != [] {
      FilterIsSubsequence(ps[1..], machine, name);
      var r := FilterParts(ps, machine, name);
      var rest := FilterParts(ps[1..], machine, name);
      if Matches(ps[0], machine, name) {
        assert r == [ps[0]] + rest;
        assert r[1..] == rest;
      } else {
        assert r == rest;
        if r != [] {
          assert Subsequence(r, ps[1..]);
        }
      }
    }
  }

  /** Filtering distributes over concatenation, so it keeps the relative order of parts. */
  lemma {:induction false} FilterConcat(a: seq<Part>, b: seq<Part>, machine: string, name: string)
    ensures FilterParts(a + b, machine, name) == FilterParts(a, machine, name) + FilterParts(b, machine, name)
    decreases |a|
  {
    if a != [] {
      assert (a + b)[1..] == a[1..] + b;
      FilterConcat(a[1..], b, machine, name);
    } else {
      assert a + b == b;
    }
  }

  /** With both filters on the sentinel the view is the whole inventory, same order. */
  lemma {:induction false} FilterAllIsIdentity(ps: seq<Part>)
    ensures FilterParts(ps, ALL, ALL) == ps
    decreases |ps|
  {
    if ps != [] {
      FilterAllIsIdentity(ps[1..]);
      assert ps == [ps[0]] + ps[1..];
    }
  }

  /** The view is the whole inventory exactly when every part matches. */
  lemma {:induction false} FilterKeepsAllIff(ps: seq<Part>, machine: string, name: string)
    ensures FilterParts(ps, machine, name) == ps <==> forall i :: 0 <= i < |ps| ==> Matches(ps[i], machine, name)
    decreases |ps|
  {
    if ps != [] {
      FilterKeepsAllIff(ps[1..], machine, name);
      var rest := FilterParts(ps[1..], machine, name);
      assert ps == [ps[0]] + ps[1..];
      if !Matches(ps[0], machine, name) {
        assert FilterParts(ps, machine, name) == rest;
        assert |rest| <= |ps[1..]| < |ps|;
      } else {
        assert FilterParts(ps, machine, name) == [ps[0]] + rest;
        if forall i :: 0 <= i < |ps| ==> Matches(ps[i], machine, name) {
          assert forall i :: 0 <= i < |ps[1..]| ==> Matches(ps[1..][i], machine, name) by {
            forall i | 0 <= i < |ps[1..]| ensures Matches(ps[1..][i], machine, name) {
              assert ps[1..][i] == ps[i + 1];
            }
          }
        } else {
          var k :| 0 <= k < |ps| && !Matches(ps[k], machine, name);
          assert k > 0 && ps[1..][k - 1] == ps[k];
        }
      }
    }
  }
}
