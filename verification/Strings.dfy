/** Byte order on names, and the stable sort by name that fingerprints use. */
module Strings {
  import opened Base
  import opened Types

  /** Ascending order of names, character by character. */
  predicate NameLe(a: string, b: string) {
    a == [] || (b != [] && (a[0] < b[0] || (a[0] == b[0] && NameLe(a[1..], b[1..]))))
  }

  lemma {:induction false} NameLeTotal(a: string, b: string)
    ensures NameLe(a, b) || NameLe(b, a)
  {
    if a != [] && b != [] && a[0] == b[0] {
      NameLeTotal(a[1..], b[1..]);
    }
  }

  lemma {:induction false} NameLeTransitive(a: string, b: string, c: string)
    requires NameLe(a, b) && NameLe(b, c)
    ensures NameLe(a, c)
  {
    if a != [] && a[0] == b[0] && b[0] == c[0] {
      NameLeTransitive(a[1..], b[1..], c[1..]);
    }
  }

  lemma {:induction false} NameLeAntisymmetric(a: string, b: string)
    requires NameLe(a, b) && NameLe(b, a)
    ensures a == b
  {
    if a != [] {
      NameLeAntisymmetric(a[1..], b[1..]);
      assert a == [a[0]] + a[1..] && b == [b[0]] + b[1..];
    }
  }

  function InsertRow(row: Row, sorted: seq<Row>): seq<Row> {
    if sorted == [] || NameLe(row.port, sorted[0].port) then [row] + sorted
    else [sorted[0]] + InsertRow(row, sorted[1..])
  }

  /** Stable sort of fingerprint rows by port. */
  function SortRows(rows: seq<Row>): seq<Row> {
    if rows == [] then [] else InsertRow(rows[0], SortRows(rows[1..]))
  }

  function InsertPair(pair: (string, string), sorted: seq<(string, string)>): seq<(string, string)> {
    if sorted == [] || NameLe(pair.0, sorted[0].0) then [pair] + sorted
    else [sorted[0]] + InsertPair(pair, sorted[1..])
  }

  /** Stable sort of key pairs by port. */
  function SortPairs(pairs: seq<(string, string)>): seq<(string, string)> {
    if pairs == [] then [] else InsertPair(pairs[0], SortPairs(pairs[1..]))
  }

  function InsertName(name: string, sorted: seq<string>): seq<string> {
    if sorted == [] || NameLe(name, sorted[0]) then [name] + sorted
    else [sorted[0]] + InsertName(name, sorted[1..])
  }

  function SortNames(names: seq<string>): seq<string> {
    if names == [] then [] else InsertName(names[0], SortNames(names[1..]))
  }

  ghost predicate Ascending(names: seq<string>) {
    forall i, j :: 0 <= i < j < |names| ==> NameLe(names[i], names[j])
  }

  lemma {:induction false} InsertAscends(name: string, sorted: seq<string>)
    requires Ascending(sorted)
    ensures Ascending(InsertName(name, sorted))
    ensures multiset(InsertName(name, sorted)) == multiset(sorted) + multiset{name}
  {
    if sorted != [] {
      var tail := sorted[1..];
      assert sorted == [sorted[0]] + tail;
      if NameLe(name, sorted[0]) {
        forall i | 0 <= i < |sorted|
          ensures NameLe(name, sorted[i])
        {
          if i > 0 {
            NameLeTransitive(name, sorted[0], sorted[i]);
          }
        }
      } else {
        NameLeTotal(name, sorted[0]);
        InsertAscends(name, tail);
        var rest := InsertName(name, tail);
        forall i | 0 <= i < |rest|
          ensures NameLe(sorted[0], rest[i])
        {
          assert rest[i] in multiset(rest);
          assert rest[i] == name || rest[i] in tail;
        }
      }
    }
  }

  /** `sort` on names: the same names, in ascending order. */
  lemma {:induction false} SortNamesSorts(names: seq<string>)
    ensures Ascending(SortNames(names)) && multiset(SortNames(names)) == multiset(names)
  {
    if names != [] {
      SortNamesSorts(names[1..]);
      InsertAscends(names[0], SortNames(names[1..]));
      assert names == [names[0]] + names[1..];
    }
  }

  /** A collection of names has one ascending order. */
  lemma {:induction false} AscendingUnique(a: seq<string>, b: seq<string>)
    requires Ascending(a) && Ascending(b) && multiset(a) == multiset(b)
    ensures a == b
  {
    if a == [] {
      assert |multiset(b)| == 0;
    } else {
      assert a[0] in multiset(b) && |multiset(a)| == |multiset(b)|;
      assert b[0] in multiset(a);
      var i :| 0 <= i < |b| && b[i] == a[0];
      var j :| 0 <= j < |a| && a[j] == b[0];
      FirstNameEqual(a, b, i, j);
      assert a == [a[0]] + a[1..] && b == [b[0]] + b[1..];
      assert multiset(a[1..]) == multiset(a) - multiset{a[0]};
      assert multiset(b[1..]) == multiset(b) - multiset{b[0]};
      AscendingUnique(a[1..], b[1..]);
    }
  }

  lemma FirstNameEqual(a: seq<string>, b: seq<string>, i: nat, j: nat)
    requires Ascending(a) && Ascending(b) && i < |b| && j < |a| && b[i] == a[0] && a[j] == b[0]
    ensures a[0] == b[0]
  {
    NameLeTotal(a[0], a[0]);
    NameLeTotal(b[0], b[0]);
    NameLeAntisymmetric(a[0], b[0]);
  }

  // ---------------------------------------------------------------- the names of a set

  lemma {:induction false} SomeListing(keys: set<string>) returns (names: seq<string>)
    ensures multiset(names) == multiset(keys)
  {
    if keys == {} {
      names := [];
    } else {
      var k :| k in keys;
      var rest := SomeListing(keys - {k});
      names := [k] + rest;
      assert multiset(keys) == multiset(keys - {k}) + multiset{k};
    }
  }

  ghost predicate IsListing(keys: set<string>, names: seq<string>) {
    Ascending(names) && multiset(names) == multiset(keys)
  }

  lemma ListingExists(keys: set<string>)
    ensures exists names :: IsListing(keys, names)
  {
    var names := SomeListing(keys);
    SortNamesSorts(names);
    assert IsListing(keys, SortNames(names));
  }

  /** The keys in ascending order. */
  ghost function Listing(keys: set<string>): (names: seq<string>)
    ensures IsListing(keys, names)
    ensures forall i :: 0 <= i < |names| ==> names[i] in keys
  {
    ListingExists(keys);
    var names :| IsListing(keys, names);
    assert forall i :: 0 <= i < |names| ==> names[i] in multiset(names);
    names
  }

  lemma ListingIs(keys: set<string>, names: seq<string>)
    requires IsListing(keys, names)
    ensures Listing(keys) == names
  {
    AscendingUnique(Listing(keys), names);
  }

  lemma Listed(keys: set<string>, k: string)
    ensures k in keys <==> k in Listing(keys)
  {
    assert k in keys <==> k in multiset(keys);
    assert k in Listing(keys) <==> k in multiset(Listing(keys));
  }

  lemma ListingDistinct(keys: set<string>)
    ensures Distinct(Listing(keys)) && |Listing(keys)| == |keys|
  {
    var names := Listing(keys);
    assert |multiset(names)| == |multiset(keys)|;
    forall i, j | 0 <= i < j < |names|
      ensures names[i] != names[j]
    {
      var front, back := names[..j], names[j..];
      assert names == front + back;
      assert front[i] == names[i] && back[0] == names[j];
      assert names[i] in multiset(front) && names[j] in multiset(back);
      assert multiset(keys)[names[i]] == multiset(front)[names[i]] + multiset(back)[names[i]] == 1;
    }
  }

  lemma SortedIsListing(keys: set<string>, names: seq<string>)
    requires multiset(names) == multiset(keys)
    ensures SortNames(names) == Listing(keys)
  {
    SortNamesSorts(names);
    ListingIs(keys, SortNames(names));
  }

  /** A map's keys, in whatever order the map is walked. */
  method Keys(keys: set<string>) returns (names: seq<string>)
    ensures multiset(names) == multiset(keys)
  {
    var remaining := keys;
    names := [];
    while remaining != {}
      invariant remaining <= keys && multiset(names) + multiset(remaining) == multiset(keys)
      decreases |remaining|
    {
      var k :| k in remaining;
      assert multiset(remaining) == multiset(remaining - {k}) + multiset{k};
      names, remaining := names + [k], remaining - {k};
    }
  }
}
