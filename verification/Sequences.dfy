/** Sequences of sequences, and the order of strings. */
module Sequences {

  function Min(a: int, b: int): int {
    if a < b then a else b
  }

  function Flat<T>(parts: seq<seq<T>>): seq<T> {
    if parts == [] then [] else parts[0] + Flat(parts[1..])
  }

  lemma {:induction false} FlatAppend<T>(parts: seq<seq<T>>, part: seq<T>)
    ensures Flat(parts + [part]) == Flat(parts) + part
  {
    if parts == [] {
      assert [part][1..] == [] && [part][0] == part;
    } else {
      assert (parts + [part])[1..] == parts[1..] + [part];
      FlatAppend(parts[1..], part);
    }
  }

  lemma {:induction false} FlatConcat<T>(a: seq<seq<T>>, b: seq<seq<T>>)
    ensures Flat(a + b) == Flat(a) + Flat(b)
    decreases |b|
  {
    if b == [] {
      assert a + b == a && Flat(a) + [] == Flat(a);
    } else {
      var n := |b| - 1;
      FlatConcat(a, b[..n]);
      FlatAppend(a + b[..n], b[n]);
      FlatAppend(b[..n], b[n]);
      assert a + b == (a + b[..n]) + [b[n]] && b == b[..n] + [b[n]];
      Regroup(Flat(a), Flat(b[..n]), b[n]);
    }
  }

  lemma Regroup<T>(a: seq<T>, b: seq<T>, c: seq<T>)
    ensures (a + b) + c == a + (b + c)
  {
  }

  /** The order of characters as numbers, the shorter string first. */
  predicate Before(a: string, b: string) {
    b != "" && (a == "" || a[0] < b[0] || (a[0] == b[0] && Before(a[1..], b[1..])))
  }

  lemma {:induction false} BeforeIrreflexive(a: string, b: string)
    requires Before(a, b)
    ensures !Before(b, a) && a != b
  {
    if a != "" && a[0] == b[0] {
      BeforeIrreflexive(a[1..], b[1..]);
    }
  }

  lemma {:induction false} BeforeTransitive(a: string, b: string, c: string)
    requires Before(a, b) && Before(b, c)
    ensures Before(a, c)
  {
    if a != "" && a[0] == b[0] == c[0] {
      BeforeTransitive(a[1..], b[1..], c[1..]);
    }
  }

  lemma {:induction false} BeforeTotal(a: string, b: string)
    ensures a == b || Before(a, b) || Before(b, a)
  {
    if a != "" && b != "" && a[0] == b[0] {
      BeforeTotal(a[1..], b[1..]);
    }
  }

  predicate Ascending(names: seq<string>) {
    forall i, j :: 0 <= i < j < |names| ==> Before(names[i], names[j])
  }

  /** A name put into its place. */
  function Insert(names: seq<string>, name: string): (r: seq<string>)
    ensures forall n :: n in r <==> n == name || n in names
  {
    if names == [] || Before(name, names[0]) then [name] + names
    else if name == names[0] then names
    else [names[0]] + Insert(names[1..], name)
  }

  lemma {:induction false} InsertAscending(names: seq<string>, name: string)
    requires Ascending(names)
    ensures Ascending(Insert(names, name))
  {
    var r := Insert(names, name);
    if names != [] && name != names[0] {
      if Before(name, names[0]) {
        forall j | 0 < j < |r| ensures Before(name, r[j]) {
          if j > 1 { BeforeTransitive(name, names[0], names[j - 1]); }
        }
      } else {
        BeforeTotal(name, names[0]);
        InsertAscending(names[1..], name);
        forall j | 0 < j < |r| ensures Before(r[0], r[j]) {
          assert r[j] in Insert(names[1..], name);
        }
      }
    }
  }
}
