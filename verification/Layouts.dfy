/** What is hashed, byte by byte: one known answer for each layout. That the layouts
  * can be read back is proved in `Canonical`, `Chain`, `Memo` and `Naming`; that they
  * are the ones other implementations write can only be seen from the bytes. */
module Layouts {
  import opened Base
  import opened Types
  import opened Strings
  import opened Encoding
  import opened Canonical
  import opened Kernel
  import opened Chain
  import opened Memo
  import opened Naming

  /** An ASCII character is one byte. */
  lemma Ascii(c: char)
    requires c as int < 0x80
    ensures Utf8([c]) == [(c as int) as Byte]
  {
    assert Utf8([c]) == Utf8Char(c) + Utf8([]);
  }

  lemma Count258()
    ensures BE64(258) == [0, 0, 0, 0, 0, 0, 1, 2]
  {
    assert BigEndian(258, 8) == BigEndian(1, 7) + [2];
    assert BigEndian(1, 7) == BigEndian(0, 6) + [1];
    assert BigEndian(0, 6) == BigEndian(0, 3) + [0, 0, 0];
  }

  /** A ledger entry: number, kind, subject, detail, the hash before. */
  lemma EntryLayout()
    ensures Preimage(258, "k", "s", [7, 8], "p")
         == [0, 0, 0, 0, 0, 0, 1, 2, 0, 107, 0, 115, 0, 7, 8, 0, 112]
  {
    Count258();
    Ascii('k');
    Ascii('s');
    Ascii('p');
  }

  lemma PairListed(a: string, b: string)
    requires a != b && NameLe(a, b)
    ensures Listing({a, b}) == [a, b]
  {
    assert multiset([a, b]) == multiset({a, b});
    ListingIs({a, b}, [a, b]);
  }

  lemma TwoEncoded(bag: map<string, Content>, a: string, b: string)
    requires bag.Keys == {a, b} && a != b && NameLe(a, b)
    ensures CanonicalBytes(bag) == Utf8(a) + [SEP] + (ContentBytes(bag[a]) + [SEP]
      + (Utf8(b) + [SEP] + (ContentBytes(bag[b]) + [SEP])))
  {
    PairListed(a, b);
    assert [a, b][1..] == [b];
    assert EncodeInOrder(bag, [b]) == Utf8(b) + [SEP] + (ContentBytes(bag[b]) + [SEP]);
  }

  lemma ObjectLayout()
    ensures ObjectRefBytes(ObjectRef("d", 258, "n")) == [100, 0, 0, 0, 0, 0, 0, 0, 1, 2, 0, 110]
  {
    Count258();
    Ascii('d');
    Ascii('n');
  }

  /** A trait bag: contract refs ascending, each with its body, or with the digest, size
    * and namespace of its object. */
  lemma BagLayout()
    ensures CanonicalBytes(map["b" := Inline([7, 8]), "a" := External(ObjectRef("d", 258, "n"))])
         == [97, 0, 100, 0, 0, 0, 0, 0, 0, 0, 1, 2, 0, 110, 0, 98, 0, 7, 8, 0]
  {
    hide CanonicalBytes, Utf8, ObjectRefBytes;
    var bag := map["b" := Inline([7, 8]), "a" := External(ObjectRef("d", 258, "n"))];
    assert bag.Keys == {"a", "b"};
    assert NameLe("a", "b");
    TwoEncoded(bag, "a", "b");
    ObjectLayout();
    Ascii('a');
    Ascii('b');
  }

  /** A contract: media type, schema, version, then what it is compatible with. */
  lemma ContractLayout()
    ensures ContractBytes("m", "s", "v", ["x"]) == [109, 0, 115, 0, 118, 0, 120, 0]
  {
    Ascii('m');
    Ascii('s');
    Ascii('v');
    Ascii('x');
    FourFields("m", "s", "v", "x");
  }

  lemma FourFields(a: string, b: string, c: string, d: string)
    ensures TextBytes([a, b, c, d])
         == Utf8(a) + [SEP] + (Utf8(b) + [SEP] + (Utf8(c) + [SEP] + (Utf8(d) + [SEP])))
  {
    TextBytesNext(a, [b, c, d]);
    TextBytesNext(b, [c, d]);
    TextBytesNext(c, [d]);
    TextBytesNext(d, []);
  }

  lemma StepInputsLayout()
    ensures CanonicalBytes(Bag(InputTraits(map["q" := "y", "p" := "x"]))) == [112, 0, 120, 0, 113, 0, 121, 0]
  {
    var inputs := map["q" := "y", "p" := "x"];
    var bag := Bag(InputTraits(inputs));
    hide CanonicalBytes, Utf8;
    assert bag.Keys == {"p", "q"};
    assert bag["p"] == Inline(Utf8("x")) && bag["q"] == Inline(Utf8("y"));
    hide Bag, InputTraits;
    Ascii('p');
    Ascii('q');
    Ascii('x');
    Ascii('y');
    TwoEncoded(bag, "p", "q");
  }

  lemma StepLayout()
    ensures TextBytes(["m", "v", "d", "c"]) == [109, 0, 118, 0, 100, 0, 99, 0]
  {
    FourFields("m", "v", "d", "c");
    Ascii('m');
    Ascii('v');
    Ascii('d');
    Ascii('c');
  }

  /** A memo key: module, version, digest, capability, then ports ascending, each with
    * its artifact. */
  lemma KeyLayout()
    ensures KeyBytes(MemoKey("m", "v", "d", "c", map["q" := "y", "p" := "x"]))
         == [109, 0, 118, 0, 100, 0, 99, 0, 112, 0, 120, 0, 113, 0, 121, 0]
  {
    StepLayout();
    StepInputsLayout();
    hide CanonicalBytes, TextBytes, Bag, InputTraits;
  }

  /** A keyed unit: port and artifact of each pair. */
  lemma PairLayout()
    ensures PairBytes([("p", "x"), ("q", "y")]) == [112, 0, 120, 0, 113, 0, 121, 0]
  {
    Ascii('p');
    Ascii('q');
    Ascii('x');
    Ascii('y');
    FourFields("p", "x", "q", "y");
    assert [("p", "x"), ("q", "y")][1..] == [("q", "y")];
    assert PairFields([("q", "y")]) == ["q", "y"];
    assert PairFields([("p", "x"), ("q", "y")]) == ["p", "x", "q", "y"];
  }

  /** A delivery unit: port, artifact and generation of each row. */
  lemma RowLayout()
    ensures RowBytes([Row("p", "x", 258)]) == [112, 0, 120, 0, 0, 0, 0, 0, 0, 0, 1, 2, 0]
  {
    Count258();
    Ascii('p');
    Ascii('x');
  }

  /** A derivation: run, work, node, module, version, capability, then name and artifact
    * of the inputs and of the outputs. */
  lemma DerivationLayout(sha: Sha)
    ensures DerivationFields(sha, Derivation(
              WorkId("r", OnceUnit("n")), AssemblyNode("n", "m", "v", "c"),
              [NamedArtifact("i", Some("x"))], [NamedArtifact("o", None)]))
         == ["r", "work:r/n", "n", "m", "v", "c", "i", "x", "o", ""]
  {
    var input, output := NamedArtifact("i", Some("x")), NamedArtifact("o", None);
    assert [input] + [output] == [input, output] && [input, output][1..] == [output];
    assert ItemFields([output]) == ["o", ""];
    assert ItemFields([input, output]) == ["i", "x"] + ["o", ""];
    assert WorkText(sha, WorkId("r", OnceUnit("n"))) == "work:" + "r" + ("/" + "n") == "work:r/n";
  }
}
