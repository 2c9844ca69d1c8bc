/** Exactly which trait bags their canonical bytes identify. Refs and bodies are
  * only closed by a NUL, so what one bag spreads over several traits another may
  * hold in one body. */
module Identity {
  import opened Base
  import opened Strings
  import opened Encoding
  import opened Kernel
  import opened Integrity
  import opened Canonical

  // ---------------------------------------------------------------- bags and what identifies them

  /** All the stores ask of refs. */
  predicate NamedBag(bag: map<string, Content>) {
    "" !in bag
  }

  /** Refs without NULs, any bodies and objects. */
  predicate CleanRefs(bag: map<string, Content>) {
    NamedBag(bag) && forall k :: k in bag ==> Clean(k)
  }

  /** No other bag has these bytes. */
  ghost predicate Identified(bag: map<string, Content>) {
    forall other :: NamedBag(other) && CanonicalBytes(other) == CanonicalBytes(bag) ==> other == bag
  }

  /** No other bag with clean refs has these bytes. */
  ghost predicate IdentifiedAmongClean(bag: map<string, Content>) {
    forall other :: CleanRefs(other) && CanonicalBytes(other) == CanonicalBytes(bag) ==> other == bag
  }

  /** The body reads as a content, a ref and the content of that ref. */
  predicate HoldsTrait(x: Bytes, a: Bytes, l: string, y: Bytes) {
    x == a + [SEP] + Utf8(l) + [SEP] + y
  }

  /** The body does not read as one trait's content followed by a later trait. */
  ghost predicate HoldsNoLaterTrait(k: string, x: Bytes, clean: bool) {
    forall a, l, y :: l != "" && (clean ==> Clean(l)) && NameLe(k, l) && k != l ==> !HoldsTrait(x, a, l, y)
  }

  predicate StartsWithText(x: Bytes, s: string, y: Bytes) {
    x == Utf8(s) + [SEP] + y
  }

  /** The body does not begin with the rest of a longer ref. */
  ghost predicate StartsWithNoText(x: Bytes) {
    forall s, y :: !StartsWithText(x, s, y)
  }

  predicate SplitsAt(k: string, a: string, b: string) {
    k == a + "\0" + b
  }

  /** The ref does not begin with a shorter ref. */
  ghost predicate Undivided(k: string) {
    forall a, b :: a != "" ==> !SplitsAt(k, a, b)
  }

  ghost predicate IsNoObject(x: Bytes) {
    forall ref :: ObjectRefBytes(ref) != x
  }

  /** One inline trait, and nothing of it can be read as something else. */
  ghost predicate OneWay(bag: map<string, Content>, k: string, x: Bytes) {
    bag == map[k := Inline(x)] && Undivided(k) && StartsWithNoText(x) && HoldsNoLaterTrait(k, x, false)
  }

  ghost predicate OneWayAmongClean(bag: map<string, Content>, k: string, x: Bytes) {
    bag == map[k := Inline(x)] && IsNoObject(x) && HoldsNoLaterTrait(k, x, true)
  }

  // ---------------------------------------------------------------- reading a first ref

  lemma {:induction false} Utf8Prefix(s: string, t: string, rest: Bytes)
    requires Utf8(t) == Utf8(s) + rest
    ensures s <= t && Utf8(t[|s|..]) == rest
  {
    if s == [] {
      assert t[0..] == t;
    } else {
      assert Utf8(s)[0] == Utf8(t)[0] && t != [];
      Associative(Utf8Char(s[0]), Utf8(s[1..]), rest);
      LeadingChar(s[0], Utf8(s[1..]) + rest);
      LeadingChar(t[0], Utf8(t[1..]));
      assert s[0] as int == t[0] as int;
      var n := |Utf8Char(s[0])|;
      assert Utf8(t[1..]) == Utf8(t)[n..] && Utf8(s[1..]) + rest == (Utf8(s) + rest)[n..];
      Utf8Prefix(s[1..], t[1..], rest);
      assert t[1..][|s[1..]|..] == t[|s|..];
      assert s == [s[0]] + s[1..] && t == [t[0]] + t[1..];
    }
  }

  lemma NulFirst(u: string, rest: Bytes)
    requires Utf8(u) == [SEP] + rest
    ensures u != "" && u[0] == '\0' && Utf8(u[1..]) == rest
  {
    LeadingChar(u[0], Utf8(u[1..]));
    assert Leading([SEP] + rest) == 0;
    assert u[0] as int == 0;
    assert Utf8Char(u[0]) == [SEP];
    assert rest == ([SEP] + rest)[1..] && Utf8(u[1..]) == ([SEP] + Utf8(u[1..]))[1..];
  }

  lemma SplitsThere(s: string, u: string)
    requires u != "" && u[0] == '\0'
    ensures |s| < |s + u| && SplitsAt(s + u, s, (s + u)[|s| + 1..]) && (s + u)[|s| + 1..] == u[1..]
  {
    assert u == "\0" + u[1..];
    assert (s + u)[|s| + 1..] == u[1..];
    assert s + u == s + "\0" + u[1..];
  }

  /** Where a shorter text and a NUL begin an encoded text, so does the text itself. */
  lemma NulInside(s: string, t: string, rest: Bytes)
    requires Utf8(t) == Utf8(s) + ([SEP] + rest)
    ensures |s| < |t| && SplitsAt(t, s, t[|s| + 1..]) && Utf8(t[|s| + 1..]) == rest
  {
    hide Utf8, SplitsAt;
    Utf8Prefix(s, t, [SEP] + rest);
    NulFirst(t[|s|..], rest);
    assert t == s + t[|s|..];
    SplitsThere(s, t[|s|..]);
  }

  lemma CutAt(a: Bytes, rest: Bytes, b: Bytes, rest': Bytes) returns (m: Bytes)
    requires a + [SEP] + rest == b + [SEP] + rest' && |a| < |b|
    ensures b == a + ([SEP] + m) && rest == m + [SEP] + rest'
  {
    var x, y := a + [SEP] + rest, b + [SEP] + rest';
    m := b[|a| + 1..];
    assert x[|a|] == SEP && y[..|b|] == b && x[..|a|] == a;
    assert b[..|a|] == y[..|a|] && b[|a|] == y[|a|];
    assert b == b[..|a|] + [b[|a|]] + m;
    assert rest == x[|a| + 1..] && m + [SEP] + rest' == y[|a| + 1..];
  }

  /** The first ref is the same, or one begins with the other and a NUL. */
  lemma FirstRef(s: string, rest: Bytes, t: string, rest': Bytes)
    requires Utf8(s) + [SEP] + rest == Utf8(t) + [SEP] + rest'
    requires |Utf8(s)| <= |Utf8(t)|
    ensures (s == t && rest == rest')
         || (|s| < |t| && SplitsAt(t, s, t[|s| + 1..]) && StartsWithText(rest, t[|s| + 1..], rest'))
  {
    hide Utf8;
    var a, b := Utf8(s), Utf8(t);
    if |a| == |b| {
      SameLengthFields(a, rest, b, rest');
      Utf8Injective(s, t);
    } else {
      var m := CutAt(a, rest, b, rest');
      NulInside(s, t, m);
    }
  }

  lemma SameLengthFields(a: Bytes, rest: Bytes, b: Bytes, rest': Bytes)
    requires a + [SEP] + rest == b + [SEP] + rest' && |a| == |b|
    ensures a == b && rest == rest'
  {
    var x, y := a + [SEP] + rest, b + [SEP] + rest';
    assert a == x[..|a|] && b == y[..|b|];
    assert rest == x[|a| + 1..] && rest' == y[|b| + 1..];
  }

  // ---------------------------------------------------------------- the bytes of a bag

  lemma {:induction false} SameEncoding(bag: map<string, Content>, bag': map<string, Content>, keys: seq<string>)
    requires forall i :: 0 <= i < |keys| ==> keys[i] in bag && keys[i] in bag' && bag[keys[i]] == bag'[keys[i]]
    ensures EncodeInOrder(bag, keys) == EncodeInOrder(bag', keys)
  {
    if keys != [] {
      SameEncoding(bag, bag', keys[1..]);
    }
  }

  /** What is encoded ends with a NUL. */
  lemma {:induction false} EndsWithSep(bag: map<string, Content>, keys: seq<string>)
    requires forall i :: 0 <= i < |keys| ==> keys[i] in bag
    requires keys != []
    ensures var e := EncodeInOrder(bag, keys); e != [] && e[|e| - 1] == SEP
  {
    if |keys| > 1 {
      EndsWithSep(bag, keys[1..]);
    } else {
      assert keys[1..] == [];
    }
  }

  lemma SingletonBytes(k: string, c: Content)
    ensures CanonicalBytes(map[k := c]) == Utf8(k) + [SEP] + (ContentBytes(c) + [SEP])
  {
    var bag := map[k := c];
    assert bag.Keys == {k};
    assert multiset([k]) == multiset({k});
    ListingIs({k}, [k]);
    OneEncoded(bag, k);
  }

  lemma FirstBytes(bag: map<string, Content>)
    requires bag != map[]
    ensures var keys := Listing(bag.Keys);
      keys != [] && keys[0] in bag
      && CanonicalBytes(bag)
         == Utf8(keys[0]) + [SEP] + (ContentBytes(bag[keys[0]]) + [SEP] + EncodeInOrder(bag, keys[1..]))
  {
    ListingDistinct(bag.Keys);
    assert bag.Keys != {};
  }

  lemma NoBytes(bag: map<string, Content>)
    ensures CanonicalBytes(bag) == [] <==> bag == map[]
  {
    if bag != map[] {
      FirstBytes(bag);
    } else {
      ListingDistinct(bag.Keys);
    }
  }

  lemma OneKey(bag: map<string, Content>)
    requires |Listing(bag.Keys)| == 1
    ensures bag == map[Listing(bag.Keys)[0] := bag[Listing(bag.Keys)[0]]]
  {
    var k := Listing(bag.Keys)[0];
    forall l
      ensures l in bag <==> l == k
    {
      Listed(bag.Keys, l);
    }
  }

  // ---------------------------------------------------------------- bags that share bytes

  lemma WithoutSecond(k: string, l: string, more: seq<string>)
    requires Ascending([k, l] + more)
    ensures Ascending([k] + more) && multiset([k, l] + more) == multiset([k] + more) + multiset{l}
  {
    var names, shorter := [k, l] + more, [k] + more;
    assert names == [k] + [l] + more;
    forall i, j | 0 <= i < j < |shorter|
      ensures NameLe(shorter[i], shorter[j])
    {
      var before := if i == 0 then 0 else i + 1;
      assert shorter[j] == names[j + 1] && shorter[i] == names[before];
    }
  }

  lemma FirstTwo(keys: set<string>, k: string, l: string, more: seq<string>)
    requires Listing(keys) == [k, l] + more
    ensures k != l && l in keys && k in keys && NameLe(k, l)
    ensures k !in more && l !in more && forall i :: 0 <= i < |more| ==> more[i] in keys
  {
    var names := [k, l] + more;
    ListingDistinct(keys);
    assert names[0] == k && names[1] == l && forall i :: 0 <= i < |more| ==> names[i + 2] == more[i];
  }

  lemma MergedListing(keys: set<string>, k: string, l: string, more: seq<string>)
    requires Listing(keys) == [k, l] + more && l in keys
    ensures Listing(keys - {l}) == [k] + more
  {
    WithoutSecond(k, l, more);
    assert multiset(keys - {l}) == multiset(keys) - multiset{l};
    ListingIs(keys - {l}, [k] + more);
  }

  /** A bag's first two traits in the body of one. */
  function Merge(bag: map<string, Content>, k: string, l: string): map<string, Content>
    requires k in bag && l in bag
  {
    (bag - {l})[k := Inline(ContentBytes(bag[k]) + [SEP] + Utf8(l) + [SEP] + ContentBytes(bag[l]))]
  }

  lemma EncodeNext(bag: map<string, Content>, k: string, more: seq<string>)
    requires k in bag && forall i :: 0 <= i < |more| ==> more[i] in bag
    ensures EncodeInOrder(bag, [k] + more)
         == Utf8(k) + [SEP] + (ContentBytes(bag[k]) + [SEP] + EncodeInOrder(bag, more))
  {
    assert ([k] + more)[1..] == more;
  }

  lemma MergedEncoding(bag: map<string, Content>, k: string, l: string, more: seq<string>)
    requires k in bag && l in bag && k != l && k !in more && l !in more
    requires forall i :: 0 <= i < |more| ==> more[i] in bag
    ensures EncodeInOrder(Merge(bag, k, l), [k] + more) == EncodeInOrder(bag, [k] + ([l] + more))
  {
    var merged := Merge(bag, k, l);
    SameEncoding(bag, merged, more);
    hide EncodeInOrder, Utf8;
    EncodeNext(merged, k, more);
    EncodeNext(bag, k, [l] + more);
    EncodeNext(bag, l, more);
    hide ContentBytes;
    MergedBytes(Utf8(k), ContentBytes(bag[k]), Utf8(l), ContentBytes(bag[l]), EncodeInOrder(bag, more));
  }

  lemma MergedBytes(k: Bytes, x: Bytes, l: Bytes, y: Bytes, rest: Bytes)
    ensures k + [SEP] + ((x + [SEP] + l + [SEP] + y) + [SEP] + rest)
         == k + [SEP] + (x + [SEP] + (l + [SEP] + (y + [SEP] + rest)))
  {
  }

  /** A bag of two or more traits shares its bytes with the bag that holds the
    * second within the body of the first. */
  lemma MergeCollides(bag: map<string, Content>) returns (other: map<string, Content>)
    requires |Listing(bag.Keys)| >= 2
    ensures other != bag && other.Keys <= bag.Keys && CanonicalBytes(other) == CanonicalBytes(bag)
  {
    var keys := Listing(bag.Keys);
    var k, l, more := keys[0], keys[1], keys[2..];
    assert keys == [k, l] + more && [k, l] + more == [k] + ([l] + more);
    FirstTwo(bag.Keys, k, l, more);
    MergedListing(bag.Keys, k, l, more);
    other := Merge(bag, k, l);
    assert other.Keys == bag.Keys - {l};
    MergedEncoding(bag, k, l, more);
    assert l in bag && l !in other;
  }

  /** An object and the body that spells its ref share their bytes. */
  lemma ObjectCollides(k: string, ref: ObjectRef)
    ensures map[k := External(ref)] != map[k := Inline(ObjectRefBytes(ref))]
    ensures CanonicalBytes(map[k := External(ref)]) == CanonicalBytes(map[k := Inline(ObjectRefBytes(ref))])
  {
    var c, d := External(ref), Inline(ObjectRefBytes(ref));
    SingletonBytes(k, c);
    SingletonBytes(k, d);
    assert map[k := c][k] != map[k := d][k];
  }

  /** A bag of any two inline traits has the bytes of the one-trait bag that holds
    * the second within the body of the first: bytes tell plain bags apart, and no
    * bag of two traits from all bags. */
  lemma TwoTraitsCollide(k: string, l: string, x: Bytes, y: Bytes)
    requires NameLe(k, l) && k != l
    ensures var one := map[k := Inline(x + [SEP] + Utf8(l) + [SEP] + y)];
      var two := map[k := Inline(x), l := Inline(y)];
      one != two && CanonicalBytes(one) == CanonicalBytes(two)
  {
    var body := x + [SEP] + Utf8(l) + [SEP] + y;
    var one, two := map[k := Inline(body)], map[k := Inline(x), l := Inline(y)];
    assert l in two && l !in one;
    ListingOfTwo(k, l);
    assert one.Keys == {k} && two.Keys == {k, l};
    OneEncoded(one, k);
    TwoEncoded(two, k, l);
    hide EncodeInOrder, Utf8;
    BodyReadTwoWays(Utf8(k), Utf8(l), x, y);
  }

  lemma BodyReadTwoWays(k: Bytes, l: Bytes, x: Bytes, y: Bytes)
    ensures k + [SEP] + ((x + [SEP] + l + [SEP] + y) + [SEP])
         == k + [SEP] + (x + [SEP] + (l + [SEP] + (y + [SEP])))
  {
  }

  lemma ListingOfTwo(k: string, l: string)
    requires NameLe(k, l) && k != l
    ensures Listing({k}) == [k] && Listing({k, l}) == [k, l]
  {
    assert multiset([k]) == multiset({k}) && multiset([k, l]) == multiset({k, l});
    ListingIs({k}, [k]);
    ListingIs({k, l}, [k, l]);
  }

  lemma OneEncoded(bag: map<string, Content>, k: string)
    requires k in bag
    ensures EncodeInOrder(bag, [k]) == Utf8(k) + [SEP] + (ContentBytes(bag[k]) + [SEP])
  {
    assert [k][1..] == [] && EncodeInOrder(bag, []) == [];
    assert ContentBytes(bag[k]) + [SEP] + [] == ContentBytes(bag[k]) + [SEP];
  }

  lemma TwoEncoded(bag: map<string, Content>, k: string, l: string)
    requires k in bag && l in bag
    ensures EncodeInOrder(bag, [k, l])
         == Utf8(k) + [SEP] + (ContentBytes(bag[k]) + [SEP] + (Utf8(l) + [SEP] + (ContentBytes(bag[l]) + [SEP])))
  {
    assert [k, l][1..] == [l];
    OneEncoded(bag, l);
  }

  /** With NULs in a body the encoding can be read two ways. */
  lemma BodiesWithNulsCollide()
    ensures var x, y := Utf8("x"), Utf8("y");
      var one := map["a" := Inline(x + [SEP] + Utf8("b") + [SEP] + y)];
      var two := map["a" := Inline(x), "b" := Inline(y)];
      one != two && CanonicalBytes(one) == CanonicalBytes(two)
  {
    assert NameLe("a", "b") && "a" != "b";
    TwoTraitsCollide("a", "b", Utf8("x"), Utf8("y"));
  }

  /** What a longer ref holds after a NUL a shorter one may hold in its body. */
  lemma RefsCollide(k: string, b: string, x: Bytes)
    ensures CanonicalBytes(map[k + "\0" + b := Inline(x)]) == CanonicalBytes(map[k := Inline(Utf8(b) + [SEP] + x)])
    ensures map[k + "\0" + b := Inline(x)] != map[k := Inline(Utf8(b) + [SEP] + x)]
  {
    var longer := k + "\0" + b;
    var one, other := map[longer := Inline(x)], map[k := Inline(Utf8(b) + [SEP] + x)];
    SingletonBytes(longer, Inline(x));
    SingletonBytes(k, Inline(Utf8(b) + [SEP] + x));
    Utf8Nul(k, b);
    hide Utf8;
    NulMoves(Utf8(k), Utf8(b), x);
    assert longer != k by { assert |longer| > |k|; }
    assert longer in one && longer !in other;
  }

  lemma NulMoves(k: Bytes, b: Bytes, x: Bytes)
    ensures (k + [SEP] + b) + [SEP] + (x + [SEP]) == k + [SEP] + ((b + [SEP] + x) + [SEP])
  {
  }

  // ---------------------------------------------------------------- bags that share bytes with none

  /** A body followed by a NUL, read as content and further traits. */
  lemma BodyRead(x: Bytes, c: Content, other: map<string, Content>, more: seq<string>)
    requires forall i :: 0 <= i < |more| ==> more[i] in other
    requires x + [SEP] == ContentBytes(c) + [SEP] + EncodeInOrder(other, more)
    ensures more == [] ==> x == ContentBytes(c)
    ensures more != [] ==> exists y :: HoldsTrait(x, ContentBytes(c), more[0], y)
  {
    var rest, body := EncodeInOrder(other, more), ContentBytes(c);
    if more == [] {
      assert (x + [SEP])[..|x|] == x && (body + [SEP])[..|body|] == body;
      assert body + [SEP] + rest == body + [SEP];
    } else {
      var l, d, after := more[0], ContentBytes(other[more[0]]), EncodeInOrder(other, more[1..]);
      assert rest == Utf8(l) + [SEP] + (d + [SEP] + after);
      EndsWithSep(other, more);
      hide EncodeInOrder, Utf8, ContentBytes;
      var y := DropLast(x, body, Utf8(l), d + [SEP] + after);
      assert HoldsTrait(x, body, l, y);
    }
  }

  lemma DropLast(x: Bytes, a: Bytes, l: Bytes, z: Bytes) returns (y: Bytes)
    requires x + [SEP] == a + [SEP] + (l + [SEP] + z) && z != []
    ensures x == a + [SEP] + l + [SEP] + y
  {
    y := z[..|z| - 1];
    var whole := a + [SEP] + (l + [SEP] + z);
    assert whole == a + [SEP] + l + [SEP] + y + [z[|z| - 1]];
    assert x == whole[..|x|];
  }

  lemma SecondIsLater(keys: set<string>)
    requires |Listing(keys)| >= 2
    ensures var names := Listing(keys); NameLe(names[0], names[1]) && names[0] != names[1] && names[1] in keys
  {
    ListingDistinct(keys);
  }

  /** A bag that starts with the ref of a one-way bag and has its bytes is that bag. */
  lemma SameRefSameBag(k: string, x: Bytes, other: map<string, Content>, clean: bool)
    requires NamedBag(other) && (clean ==> CleanRefs(other)) && other != map[] && Listing(other.Keys) != []
    requires Listing(other.Keys)[0] == k && k in other
    requires x + [SEP]
          == ContentBytes(other[k]) + [SEP] + EncodeInOrder(other, Listing(other.Keys)[1..])
    requires IsNoObject(x) && HoldsNoLaterTrait(k, x, clean)
    ensures other == map[k := Inline(x)]
  {
    var keys := Listing(other.Keys);
    BodyRead(x, other[k], other, keys[1..]);
    if keys[1..] != [] {
      SecondIsLater(other.Keys);
      assert false;
    }
    OneKey(other);
  }

  /** An object's ref begins with text and a NUL. */
  lemma NoTextNoObject(x: Bytes)
    requires StartsWithNoText(x)
    ensures IsNoObject(x)
  {
    forall ref: ObjectRef
      ensures ObjectRefBytes(ref) != x
    {
      assert !StartsWithText(x, ref.digest, BE64(ref.byteCount) + [SEP] + Utf8(ref.namespace));
    }
  }

  /** A one-way bag's first ref is read in one way only. */
  lemma OneFirstRef(k: string, x: Bytes, l: string, rest: Bytes)
    requires Undivided(k) && StartsWithNoText(x) && l != "" && rest != []
    requires Utf8(k) + [SEP] + (x + [SEP]) == Utf8(l) + [SEP] + rest
    ensures l == k && rest == x + [SEP]
  {
    hide Utf8, SplitsAt, StartsWithText;
    if |Utf8(k)| <= |Utf8(l)| {
      FirstRef(k, x + [SEP], l, rest);
      if l != k {
        StartsBeforeSep(x, l[|k| + 1..], rest);
        assert false;
      }
    } else {
      FirstRef(l, rest, k, x + [SEP]);
      assert false;
    }
  }

  lemma OneWayIdentified(bag: map<string, Content>, k: string, x: Bytes)
    requires OneWay(bag, k, x)
    ensures Identified(bag)
  {
    SingletonBytes(k, Inline(x));
    NoTextNoObject(x);
    forall other | NamedBag(other) && CanonicalBytes(other) == CanonicalBytes(bag)
      ensures other == bag
    {
      NoBytes(other);
      NoBytes(bag);
      FirstBytes(other);
      var l := Listing(other.Keys)[0];
      hide Utf8, EncodeInOrder, ContentBytes;
      OneFirstRef(k, x, l, ContentBytes(other[l]) + [SEP] + EncodeInOrder(other, Listing(other.Keys)[1..]));
      SameRefSameBag(k, x, other, false);
    }
  }

  lemma StartsBeforeSep(x: Bytes, b: string, rest: Bytes)
    requires StartsWithText(x + [SEP], b, rest) && rest != []
    ensures StartsWithText(x, b, rest[..|rest| - 1])
  {
    var whole := Utf8(b) + [SEP] + rest;
    assert whole == Utf8(b) + [SEP] + rest[..|rest| - 1] + [rest[|rest| - 1]];
    assert x == (x + [SEP])[..|x|];
  }

  lemma OneWayAmongCleanIdentified(bag: map<string, Content>, k: string, x: Bytes)
    requires OneWayAmongClean(bag, k, x) && CleanRefs(bag)
    ensures IdentifiedAmongClean(bag)
  {
    SingletonBytes(k, Inline(x));
    assert k in bag;
    forall other | CleanRefs(other) && CanonicalBytes(other) == CanonicalBytes(bag)
      ensures other == bag
    {
      NoBytes(other);
      NoBytes(bag);
      FirstBytes(other);
      var keys := Listing(other.Keys);
      SplitText(k, x + [SEP], keys[0], ContentBytes(other[keys[0]]) + [SEP] + EncodeInOrder(other, keys[1..]));
      SameRefSameBag(k, x, other, true);
    }
  }

  // ---------------------------------------------------------------- exactly which

  /** A bag that is not empty and not one inline trait has a bag with clean refs
    * beside it, if its own are clean. */
  lemma ManyOrObject(bag: map<string, Content>) returns (other: map<string, Content>)
    requires NamedBag(bag) && bag != map[] && !exists k, x :: bag == map[k := Inline(x)]
    ensures other != bag && NamedBag(other) && (CleanRefs(bag) ==> CleanRefs(other))
    ensures CanonicalBytes(other) == CanonicalBytes(bag)
  {
    FirstBytes(bag);
    if |Listing(bag.Keys)| >= 2 {
      other := MergeCollides(bag);
    } else {
      OneKey(bag);
      var k := Listing(bag.Keys)[0];
      assert bag[k].External?;
      other := map[k := Inline(ObjectRefBytes(bag[k].ref))];
      ObjectCollides(k, bag[k].ref);
    }
  }

  lemma HeldTraitCollides(k: string, x: Bytes, a: Bytes, l: string, y: Bytes)
    requires HoldsTrait(x, a, l, y) && NameLe(k, l) && k != l
    ensures var one, two := map[k := Inline(x)], map[k := Inline(a), l := Inline(y)];
      one != two && two.Keys == {k, l} && CanonicalBytes(one) == CanonicalBytes(two)
  {
    hide Utf8, CanonicalBytes, NameLe;
    TwoTraitsCollide(k, l, a, y);
  }

  /** One inline trait whose body holds a later trait shares its bytes. */
  lemma LaterTraitCollides(k: string, x: Bytes, clean: bool) returns (other: map<string, Content>)
    requires !HoldsNoLaterTrait(k, x, clean) && k != "" && (clean ==> Clean(k))
    ensures other != map[k := Inline(x)] && NamedBag(other) && (clean ==> CleanRefs(other))
    ensures CanonicalBytes(other) == CanonicalBytes(map[k := Inline(x)])
  {
    hide HoldsTrait, NameLe, CanonicalBytes;
    var a, l, y :| l != "" && (clean ==> Clean(l)) && NameLe(k, l) && k != l && HoldsTrait(x, a, l, y);
    HeldTraitCollides(k, x, a, l, y);
    other := map[k := Inline(a), l := Inline(y)];
  }

  lemma DividedCollides(k: string, x: Bytes) returns (other: map<string, Content>)
    requires k != "" && !(Undivided(k) && StartsWithNoText(x))
    ensures other != map[k := Inline(x)] && NamedBag(other)
    ensures CanonicalBytes(other) == CanonicalBytes(map[k := Inline(x)])
  {
    if !Undivided(k) {
      var a, b :| a != "" && SplitsAt(k, a, b);
      RefsCollide(a, b, x);
      other := map[a := Inline(Utf8(b) + [SEP] + x)];
    } else {
      var s, y :| StartsWithText(x, s, y);
      RefsCollide(k, s, y);
      other := map[k + "\0" + s := Inline(y)];
    }
  }

  /** Exactly which bags their canonical bytes identify: the empty one, and one
    * inline trait whose ref holds no NUL after its first character, and whose
    * body neither begins with text and a NUL nor holds a later ref between NULs. */
  lemma IdentifiedIff(bag: map<string, Content>)
    requires NamedBag(bag)
    ensures Identified(bag) <==> bag == map[] || exists k, x :: OneWay(bag, k, x)
  {
    hide CanonicalBytes, Utf8, HoldsTrait, SplitsAt, StartsWithText;
    if bag == map[] {
      NoBytes(bag);
      forall other | CanonicalBytes(other) == CanonicalBytes(bag)
        ensures other == bag
      {
        NoBytes(other);
      }
    } else if k, x :| OneWay(bag, k, x) {
      OneWayIdentified(bag, k, x);
    } else {
      var other;
      if k, x :| bag == map[k := Inline(x)] {
        assert k in bag && !OneWay(bag, k, x);
        if HoldsNoLaterTrait(k, x, false) {
          other := DividedCollides(k, x);
        } else {
          other := LaterTraitCollides(k, x, false);
        }
      } else {
        other := ManyOrObject(bag);
      }
      assert !Identified(bag);
    }
  }

  /** The same among bags whose refs hold no NUL: the empty one, and one inline
    * trait whose body spells no object and holds no later ref between NULs. */
  lemma IdentifiedAmongCleanIff(bag: map<string, Content>)
    requires CleanRefs(bag)
    ensures IdentifiedAmongClean(bag) <==> bag == map[] || exists k, x :: OneWayAmongClean(bag, k, x)
  {
    hide CanonicalBytes, ObjectRefBytes, Utf8, HoldsTrait;
    if bag == map[] {
      NoBytes(bag);
      forall other | CanonicalBytes(other) == CanonicalBytes(bag)
        ensures other == bag
      {
        NoBytes(other);
      }
    } else if k, x :| OneWayAmongClean(bag, k, x) {
      OneWayAmongCleanIdentified(bag, k, x);
    } else {
      var other;
      if k, x :| bag == map[k := Inline(x)] {
        assert k in bag && !OneWayAmongClean(bag, k, x);
        if ref :| ObjectRefBytes(ref) == x {
          ObjectCollides(k, ref);
          other := map[k := External(ref)];
        } else {
          other := LaterTraitCollides(k, x, true);
        }
      } else {
        other := ManyOrObject(bag);
      }
      assert !IdentifiedAmongClean(bag);
    }
  }

  /** Putting content that its bytes identify and reading it back gives that
    * content, whoever stored it first, or exhibits a hash collision. */
  lemma IdentifiedReadsBack(sha: Sha, policy: StorePolicy, calls: seq<Call>, traits: map<string, Trait>,
                            about: seq<string>)
    ensures var config := Config(AddressesBy(sha), policy);
      var put := PutArtifact(config.hashes, policy, After(config, calls), traits, about);
      put.1.Success? && Identified(Bag(traits)) ==>
        var stored := Bag(put.0.artifacts[put.1.value].traits);
        stored == Bag(traits) || Collides(sha, CanonicalBytes(stored), CanonicalBytes(Bag(traits)))
  {
    var config := Config(AddressesBy(sha), policy);
    var put := PutArtifact(config.hashes, policy, After(config, calls), traits, about);
    if put.1.Success? && Identified(Bag(traits)) {
      ReadBack(config, calls, traits, about);
      var stored := put.0.artifacts[put.1.value].traits;
      assert NamedBag(Bag(stored));
      PrefixedEqual(sha(CanonicalBytes(Bag(stored))), sha(CanonicalBytes(Bag(traits))));
    }
  }

  // ---------------------------------------------------------------- contracts

  function FieldsOf(c: Contract): seq<string> {
    ContractFields(c.mediaType, c.schema, c.version, c.compatibleWith)
  }

  /** Exactly when two contracts are hashed alike: when their fields, cut at their
    * NULs, are the same. */
  lemma ContractsAgreeIff(a: Contract, b: Contract)
    ensures ContractBytes(a.mediaType, a.schema, a.version, a.compatibleWith)
         == ContractBytes(b.mediaType, b.schema, b.version, b.compatibleWith)
       <==> AllPieces(FieldsOf(a)) == AllPieces(FieldsOf(b))
  {
    FieldsAgreeIff(FieldsOf(a), FieldsOf(b));
  }

  /** No contract of other content, kept as the kernel keeps them, hashes like it. */
  ghost predicate ContractIdentified(c: Contract) {
    forall d: Contract :: Ascending(d.compatibleWith) && TextBytes(FieldsOf(d)) == TextBytes(FieldsOf(c)) ==>
      FieldsOf(d) == FieldsOf(c)
  }

  function ContractOf(fields: seq<string>): Contract
    requires |fields| >= 3
  {
    Contract("", fields[0], fields[1], fields[2], fields[3..], "")
  }

  lemma ContractOfFields(fields: seq<string>)
    requires |fields| >= 3
    ensures FieldsOf(ContractOf(fields)) == fields
  {
  }

  /** With a compatible ref, the first two fields can be one. */
  lemma FieldsJoined(c: Contract) returns (fields: seq<string>)
    requires Ascending(c.compatibleWith) && c.compatibleWith != []
    ensures |fields| >= 3 && fields != FieldsOf(c) && TextBytes(fields) == TextBytes(FieldsOf(c))
    ensures Ascending(fields[3..])
  {
    hide TextBytes, Ascending;
    var m, s := c.mediaType, c.schema;
    var rest := [c.version] + c.compatibleWith;
    fields := [m + "\0" + s] + rest;
    CutField([], m, s, rest);
    assert [] + fields == fields;
    assert FieldsOf(c) == [] + ([m] + ([s] + rest));
    assert fields[3..] == c.compatibleWith[1..];
    LaterAscend(c.compatibleWith);
  }

  lemma LaterAscend(names: seq<string>)
    requires Ascending(names) && names != []
    ensures Ascending(names[1..])
  {
  }

  /** A field that holds a NUL can be two. */
  lemma FieldCut(own: seq<string>, i: nat) returns (fields: seq<string>)
    requires i < |own| == 3 && !Clean(own[i])
    ensures |fields| == 4 && TextBytes(fields) == TextBytes(own)
  {
    hide TextBytes;
    var a, b := FirstNul(own[i]);
    var front, rest := own[..i], own[i + 1..];
    fields := front + ([a] + ([b] + rest));
    CutField(front, a, b, rest);
    assert own == front + ([own[i]] + rest);
  }

  /** Fields of another contract with the same bytes: one field fewer, or more. */
  lemma ContractTwin(c: Contract) returns (fields: seq<string>)
    requires Ascending(c.compatibleWith) && !(c.compatibleWith == [] && AllClean(FieldsOf(c)))
    ensures |fields| >= 3 && fields != FieldsOf(c) && TextBytes(fields) == TextBytes(FieldsOf(c))
    ensures Ascending(fields[3..])
  {
    hide TextBytes, Clean;
    if c.compatibleWith != [] {
      fields := FieldsJoined(c);
    } else {
      var own := FieldsOf(c);
      var i :| 0 <= i < |own| && !Clean(own[i]);
      fields := FieldCut(own, i);
    }
  }

  /** Exactly which contracts are told apart from all others by what is hashed:
    * those that name no compatible ref and hold no NUL. */
  lemma ContractIdentifiedIff(c: Contract)
    requires Ascending(c.compatibleWith)
    ensures ContractIdentified(c) <==> c.compatibleWith == [] && AllClean(FieldsOf(c))
  {
    if c.compatibleWith == [] && AllClean(FieldsOf(c)) {
      forall d: Contract | Ascending(d.compatibleWith) && TextBytes(FieldsOf(d)) == TextBytes(FieldsOf(c))
        ensures FieldsOf(d) == FieldsOf(c)
      {
        FieldsAgreeIff(FieldsOf(d), FieldsOf(c));
        AllPiecesClean(FieldsOf(c));
        PieceCount(FieldsOf(d));
        AllPiecesClean(FieldsOf(d));
      }
    } else {
      var fields := ContractTwin(c);
      ContractOfFields(fields);
      assert FieldsOf(ContractOf(fields)) != FieldsOf(c);
    }
  }
}
