/** The byte strings the system hashes: UTF-8 text, big-endian counters and
  * fields closed by a NUL. Each encoding is shown to be readable back, so that
  * equal bytes mean equal content. */
module Encoding {
  import opened Base
  import opened Strings

  /** What separates hashed fields. */
  const SEP: Byte := 0

  // ---------------------------------------------------------------- UTF-8

  /** The UTF-8 form of one character (RFC 3629, section 3). */
  function Utf8Char(c: char): (r: Bytes)
    ensures r != []
  {
    var n := c as int;
    var m := n / 64;
    if n < 0x80 then [n as Byte]
    else if n < 0x800 then [(0xC0 + m) as Byte, Tail(n)]
    else if n < 0x1_0000 then [(0xE0 + m / 64) as Byte, Tail(m), Tail(n)]
    else [(0xF0 + m / 64 / 64) as Byte, Tail(m / 64), Tail(m), Tail(n)]
  }

  /** A continuation byte: the low six bits. */
  function Tail(n: nat): Byte {
    (0x80 + n % 64) as Byte
  }

  function Utf8(s: string): Bytes {
    if s == [] then [] else Utf8Char(s[0]) + Utf8(s[1..])
  }

  predicate NulFree(b: Bytes) {
    SEP !in b
  }

  predicate Clean(s: string) {
    '\0' !in s
  }

  /** The character at the front of encoded text, read back from its bytes. */
  function Leading(b: Bytes): int
    requires b != []
  {
    var n := b[0] as int;
    if n < 0x80 || |b| < 2 then n
    else if n < 0xE0 || |b| < 3 then Shift(n - 0xC0, b[1])
    else if n < 0xF0 || |b| < 4 then Shift(Shift(n - 0xE0, b[1]), b[2])
    else Shift(Shift(Shift(n - 0xF0, b[1]), b[2]), b[3])
  }

  function Shift(high: int, tail: Byte): int {
    high * 64 + (tail as int - 0x80)
  }

  lemma ShiftTail(n: nat)
    ensures Shift(n / 64, Tail(n)) == n
  {
  }

  lemma LeadingChar(c: char, rest: Bytes)
    ensures Leading(Utf8Char(c) + rest) == c as int
  {
    var n := c as int;
    ShiftTail(n);
    ShiftTail(n / 64);
    ShiftTail(n / 64 / 64);
  }

  lemma {:induction false} Utf8Injective(s: string, t: string)
    requires Utf8(s) == Utf8(t)
    ensures s == t
  {
    if s != [] && t != [] {
      LeadingChar(s[0], Utf8(s[1..]));
      LeadingChar(t[0], Utf8(t[1..]));
      assert s[0] as int == t[0] as int;
      assert s[0] == t[0];
      var n := |Utf8Char(s[0])|;
      assert Utf8(s[1..]) == Utf8(s)[n..] && Utf8(t[1..]) == Utf8(t)[n..];
      Utf8Injective(s[1..], t[1..]);
      assert s == [s[0]] + s[1..] && t == [t[0]] + t[1..];
    }
  }

  lemma {:induction false} Utf8Append(s: string, t: string)
    ensures Utf8(s + t) == Utf8(s) + Utf8(t)
  {
    if s == [] {
      assert s + t == t;
    } else {
      Utf8Append(s[1..], t);
      assert (s + t)[1..] == s[1..] + t && (s + t)[0] == s[0];
      Associative(Utf8Char(s[0]), Utf8(s[1..]), Utf8(t));
    }
  }

  lemma Associative(a: Bytes, b: Bytes, c: Bytes)
    ensures (a + b) + c == a + (b + c)
  {
  }

  lemma Utf8Nul(s: string, t: string)
    ensures Utf8(s + "\0" + t) == Utf8(s) + [SEP] + Utf8(t)
  {
    Utf8Append(s + "\0", t);
    Utf8Append(s, "\0");
    assert "\0"[1..] == "" && Utf8("\0") == [SEP];
  }

  lemma {:induction false} Utf8Clean(s: string)
    ensures NulFree(Utf8(s)) <==> Clean(s)
  {
    if s != [] {
      Utf8Clean(s[1..]);
      assert SEP in Utf8Char(s[0]) <==> s[0] == '\0';
      assert SEP in Utf8(s) <==> SEP in Utf8Char(s[0]) || SEP in Utf8(s[1..]);
      assert s == [s[0]] + s[1..];
    }
  }

  // ---------------------------------------------------------------- order

  /** Ascending order of byte strings. */
  predicate BytesLe(a: Bytes, b: Bytes) {
    a == [] || (b != [] && (a[0] < b[0] || (a[0] == b[0] && BytesLe(a[1..], b[1..]))))
  }

  /** `a` comes before `b` because of the byte at index `k`. */
  lemma {:induction false} FirstDifference(a: Bytes, b: Bytes, k: nat)
    requires k < |a| && k < |b| && a[..k] == b[..k] && a[k] < b[k]
    ensures BytesLe(a, b) && !BytesLe(b, a)
  {
    if k > 0 {
      assert a[0] == a[..k][0] && b[0] == b[..k][0];
      assert a[1..][..k - 1] == a[..k][1..] && b[1..][..k - 1] == b[..k][1..];
      FirstDifference(a[1..], b[1..], k - 1);
    }
  }

  /** Continuation bytes order numbers that agree above their low six bits. */
  lemma TailOrder(n: nat, m: nat)
    requires n < m && n / 64 == m / 64
    ensures Tail(n) < Tail(m)
  {
    assert n == n / 64 * 64 + n % 64 && m == m / 64 * 64 + m % 64;
  }

  ghost predicate DifferAt(a: Bytes, b: Bytes, k: nat) {
    k < |a| && k < |b| && a[k] < b[k] && forall i :: 0 <= i < k ==> a[i] == b[i]
  }

  lemma ThreeBytes(c: char, d: char) returns (k: nat)
    requires 0x800 <= c as int < d as int < 0x1_0000 && c as int / 64 / 64 == d as int / 64 / 64
    ensures DifferAt(Utf8Char(c), Utf8Char(d), k)
  {
    var n, m := c as int, d as int;
    if n / 64 == m / 64 {
      TailOrder(n, m);
      k := 2;
    } else {
      TailOrder(n / 64, m / 64);
      k := 1;
    }
  }

  lemma FourBytes(c: char, d: char) returns (k: nat)
    requires 0x1_0000 <= c as int < d as int && c as int / 64 / 64 / 64 == d as int / 64 / 64 / 64
    ensures DifferAt(Utf8Char(c), Utf8Char(d), k)
  {
    var n, m := c as int, d as int;
    if n / 64 == m / 64 {
      TailOrder(n, m);
      k := 3;
    } else if n / 64 / 64 == m / 64 / 64 {
      TailOrder(n / 64, m / 64);
      k := 2;
    } else {
      TailOrder(n / 64 / 64, m / 64 / 64);
      k := 1;
    }
  }

  /** Leading bytes order characters. */
  lemma LeadingOrder(c: char, d: char)
    requires c < d
    ensures Utf8Char(c)[0] <= Utf8Char(d)[0]
  {
    var n, m := c as int, d as int;
    if 0x1_0000 <= n {
      assert n / 64 / 64 / 64 <= m / 64 / 64 / 64;
    } else if 0x800 <= n && m < 0x1_0000 {
      assert n / 64 / 64 <= m / 64 / 64;
    } else if 0x80 <= n && m < 0x800 {
      assert n / 64 <= m / 64;
    }
  }

  /** Equal leading bytes are those of equally long encodings. */
  lemma SameLeading(c: char, d: char)
    requires c < d && Utf8Char(c)[0] == Utf8Char(d)[0]
    ensures 0x80 <= c as int && (d as int < 0x800 <==> c as int < 0x800)
    ensures d as int < 0x1_0000 <==> c as int < 0x1_0000
    ensures d as int < 0x800 ==> c as int / 64 == d as int / 64
    ensures 0x800 <= c as int && d as int < 0x1_0000 ==> c as int / 64 / 64 == d as int / 64 / 64
    ensures 0x1_0000 <= c as int ==> c as int / 64 / 64 / 64 == d as int / 64 / 64 / 64
  {
  }

  /** Where the encodings of two characters first differ. */
  lemma CharDifference(c: char, d: char) returns (k: nat)
    requires c < d
    ensures DifferAt(Utf8Char(c), Utf8Char(d), k)
  {
    var n, m := c as int, d as int;
    LeadingOrder(c, d);
    if Utf8Char(c)[0] != Utf8Char(d)[0] {
      k := 0;
      return;
    }
    SameLeading(c, d);
    if m < 0x800 {
      TailOrder(n, m);
      k := 1;
    } else if m < 0x1_0000 {
      k := ThreeBytes(c, d);
    } else {
      k := FourBytes(c, d);
    }
  }

  lemma CharOrder(c: char, d: char, rest: Bytes, rest': Bytes)
    requires c < d
    ensures BytesLe(Utf8Char(c) + rest, Utf8Char(d) + rest')
    ensures !BytesLe(Utf8Char(d) + rest', Utf8Char(c) + rest)
  {
    var k := CharDifference(c, d);
    FirstDifference(Utf8Char(c) + rest, Utf8Char(d) + rest', k);
  }

  lemma {:induction false} SamePrefix(p: Bytes, a: Bytes, b: Bytes)
    ensures BytesLe(p + a, p + b) <==> BytesLe(a, b)
  {
    if p == [] {
      assert p + a == a && p + b == b;
    } else {
      assert (p + a)[1..] == p[1..] + a && (p + b)[1..] == p[1..] + b;
      SamePrefix(p[1..], a, b);
    }
  }

  /** Sorting text by its UTF-8 bytes is sorting it by its characters. */
  lemma {:induction false} Utf8Order(s: string, t: string)
    ensures BytesLe(Utf8(s), Utf8(t)) <==> NameLe(s, t)
  {
    if s != [] && t != [] {
      if s[0] < t[0] {
        CharOrder(s[0], t[0], Utf8(s[1..]), Utf8(t[1..]));
      } else if t[0] < s[0] {
        CharOrder(t[0], s[0], Utf8(t[1..]), Utf8(s[1..]));
      } else {
        SamePrefix(Utf8Char(s[0]), Utf8(s[1..]), Utf8(t[1..]));
        Utf8Order(s[1..], t[1..]);
      }
    }
  }

  // ---------------------------------------------------------------- counters

  /** The `width` low bytes of `n`, most significant first. */
  function BigEndian(n: nat, width: nat): (r: Bytes)
    ensures |r| == width
  {
    if width == 0 then [] else BigEndian(n / 256, width - 1) + [(n % 256) as Byte]
  }

  predicate Fits(n: nat, width: nat) {
    if width == 0 then n == 0 else Fits(n / 256, width - 1)
  }

  lemma U64Fits(n: nat)
    requires n <= U64_MAX
    ensures Fits(n, 8)
  {
    var a := n / 256;
    var b := a / 256;
    var c := b / 256;
    var d := c / 256;
    assert d <= 0xFFFF_FFFF && d / 256 <= 0xFF_FFFF && d / 256 / 256 <= 0xFFFF && d / 256 / 256 / 256 <= 0xFF;
    assert Fits(d / 256 / 256 / 256, 1) && Fits(d / 256 / 256, 2) && Fits(d / 256, 3) && Fits(d, 4);
    assert Fits(c, 5) && Fits(b, 6) && Fits(a, 7);
  }

  lemma {:induction false} BigEndianInjective(n: nat, m: nat, width: nat)
    requires Fits(n, width) && Fits(m, width) && BigEndian(n, width) == BigEndian(m, width)
    ensures n == m
  {
    if width > 0 {
      var x, y := BigEndian(n, width), BigEndian(m, width);
      assert x[..width - 1] == BigEndian(n / 256, width - 1) && y[..width - 1] == BigEndian(m / 256, width - 1);
      BigEndianInjective(n / 256, m / 256, width - 1);
      assert x[width - 1] == (n % 256) as Byte && y[width - 1] == (m % 256) as Byte;
    }
  }

  function BE64(n: nat): Bytes {
    BigEndian(n, 8)
  }

  lemma BE64Injective(n: nat, m: nat)
    requires n <= U64_MAX && m <= U64_MAX && BE64(n) == BE64(m)
    ensures n == m
  {
    U64Fits(n);
    U64Fits(m);
    BigEndianInjective(n, m, 8);
  }

  /** A counter is eight bytes, so it can be split off. */
  lemma SplitCount(n: nat, rest: Bytes, m: nat, rest': Bytes)
    requires n <= U64_MAX && m <= U64_MAX && BE64(n) + rest == BE64(m) + rest'
    ensures n == m && rest == rest'
  {
    var x, y := BE64(n) + rest, BE64(m) + rest';
    assert BE64(n) == x[..8] && BE64(m) == y[..8];
    assert rest == x[8..] && rest' == y[8..];
    BE64Injective(n, m);
  }

  /** A text field can be split off. */
  lemma SplitText(s: string, rest: Bytes, t: string, rest': Bytes)
    requires Clean(s) && Clean(t) && Utf8(s) + [SEP] + rest == Utf8(t) + [SEP] + rest'
    ensures s == t && rest == rest'
  {
    Utf8Clean(s);
    Utf8Clean(t);
    SplitField(Utf8(s), rest, Utf8(t), rest');
    Utf8Injective(s, t);
  }

  lemma {:induction false} FirstNul(s: string) returns (front: string, back: string)
    requires !Clean(s)
    ensures Clean(front) && s == front + "\0" + back
  {
    if s[0] == '\0' {
      front, back := "", s[1..];
    } else {
      front, back := FirstNul(s[1..]);
      assert s == [s[0]] + s[1..];
      front := [s[0]] + front;
    }
  }

  // ---------------------------------------------------------------- fields

  /** The first NUL ends the field, so a NUL-free field can be split off. */
  lemma SplitField(a: Bytes, rest: Bytes, b: Bytes, rest': Bytes)
    requires NulFree(a) && NulFree(b) && a + [SEP] + rest == b + [SEP] + rest'
    ensures a == b && rest == rest'
  {
    var x, y := a + [SEP] + rest, b + [SEP] + rest';
    assert x[|a|] == SEP && y[|b|] == SEP;
    assert forall i :: 0 <= i < |a| ==> x[i] == a[i];
    assert forall i :: 0 <= i < |b| ==> y[i] == b[i];
    assert |a| == |b|;
    assert a == x[..|a|] && b == y[..|b|];
    assert rest == x[|a| + 1..] && rest' == y[|b| + 1..];
  }

  /** The last NUL starts the last field. */
  lemma SplitLast(front: Bytes, a: Bytes, front': Bytes, b: Bytes)
    requires NulFree(a) && NulFree(b) && front + [SEP] + a == front' + [SEP] + b
    ensures a == b && front == front'
  {
    var x, y := front + [SEP] + a, front' + [SEP] + b;
    assert x[|front|] == SEP && y[|front'|] == SEP;
    assert forall i :: |front| < i < |x| ==> x[i] == a[i - |front| - 1];
    assert forall i :: |front'| < i < |y| ==> y[i] == b[i - |front'| - 1];
    assert |front| == |front'|;
    assert front == x[..|front|] && front' == y[..|front'|];
    assert a == x[|front| + 1..] && b == y[|front'| + 1..];
  }

  /** Fields, each closed by a NUL. */
  function Terminated(fields: seq<Bytes>): Bytes {
    if fields == [] then [] else fields[0] + [SEP] + Terminated(fields[1..])
  }

  lemma {:induction false} TerminatedInjective(fs: seq<Bytes>, gs: seq<Bytes>)
    requires forall i :: 0 <= i < |fs| ==> NulFree(fs[i])
    requires forall i :: 0 <= i < |gs| ==> NulFree(gs[i])
    requires Terminated(fs) == Terminated(gs)
    ensures fs == gs
  {
    if fs != [] && gs != [] {
      SplitField(fs[0], Terminated(fs[1..]), gs[0], Terminated(gs[1..]));
      TerminatedInjective(fs[1..], gs[1..]);
      assert fs == [fs[0]] + fs[1..] && gs == [gs[0]] + gs[1..];
    }
  }

  function Texts(strings: seq<string>): (r: seq<Bytes>)
    ensures |r| == |strings| && forall i :: 0 <= i < |r| ==> r[i] == Utf8(strings[i])
  {
    if strings == [] then [] else [Utf8(strings[0])] + Texts(strings[1..])
  }

  /** Text fields, each closed by a NUL. */
  function TextBytes(fields: seq<string>): Bytes {
    Terminated(Texts(fields))
  }

  /** Text cut at its NULs. */
  function Pieces(s: string): (r: seq<string>)
    ensures r != []
  {
    if s == [] then [""]
    else
      var rest := Pieces(s[1..]);
      if s[0] == '\0' then [""] + rest else [[s[0]] + rest[0]] + rest[1..]
  }

  function AllPieces(fields: seq<string>): seq<string> {
    if fields == [] then [] else Pieces(fields[0]) + AllPieces(fields[1..])
  }

  lemma {:induction false} PiecesClean(s: string)
    ensures forall i :: 0 <= i < |Pieces(s)| ==> Clean(Pieces(s)[i])
    ensures Clean(s) ==> Pieces(s) == [s]
  {
    if s != [] {
      PiecesClean(s[1..]);
      assert s == [s[0]] + s[1..];
    }
  }

  lemma {:induction false} AllPiecesClean(fields: seq<string>)
    ensures forall i :: 0 <= i < |AllPieces(fields)| ==> Clean(AllPieces(fields)[i])
    ensures (forall i :: 0 <= i < |fields| ==> Clean(fields[i])) ==> AllPieces(fields) == fields
  {
    if fields != [] {
      PiecesClean(fields[0]);
      AllPiecesClean(fields[1..]);
      assert fields == [fields[0]] + fields[1..];
    }
  }

  lemma TextBytesNext(field: string, fields: seq<string>)
    ensures TextBytes([field] + fields) == Utf8(field) + [SEP] + TextBytes(fields)
  {
    assert ([field] + fields)[1..] == fields;
    assert Texts([field] + fields) == [Utf8(field)] + Texts(fields);
  }

  lemma {:induction false} TextBytesAppend(a: seq<string>, b: seq<string>)
    ensures TextBytes(a + b) == TextBytes(a) + TextBytes(b)
  {
    if a == [] {
      assert a + b == b;
    } else {
      TextBytesAppend(a[1..], b);
      assert a == [a[0]] + a[1..] && a + b == [a[0]] + (a[1..] + b);
      hide Utf8, TextBytes;
      TextBytesNext(a[0], a[1..]);
      TextBytesNext(a[0], a[1..] + b);
      Associative(Utf8(a[0]) + [SEP], TextBytes(a[1..]), TextBytes(b));
    }
  }

  lemma {:induction false} PiecesBytes(s: string)
    ensures TextBytes(Pieces(s)) == Utf8(s) + [SEP]
  {
    if s == [] {
      TextBytesNext("", []);
      assert TextBytes([]) == [] && [""] + [] == [""];
    } else {
      var rest := Pieces(s[1..]);
      PiecesBytes(s[1..]);
      assert rest == [rest[0]] + rest[1..];
      TextBytesNext(rest[0], rest[1..]);
      if s[0] == '\0' {
        TextBytesNext("", rest);
        assert Utf8("") + [SEP] + TextBytes(rest) == Utf8Char(s[0]) + Utf8(s[1..]) + [SEP];
      } else {
        var front := [s[0]] + rest[0];
        TextBytesNext(front, rest[1..]);
        assert front[1..] == rest[0] && Utf8(front) == Utf8Char(s[0]) + Utf8(rest[0]);
        Associative(Utf8Char(s[0]), Utf8(rest[0]) + [SEP], TextBytes(rest[1..]));
        Associative(Utf8Char(s[0]), Utf8(rest[0]), [SEP]);
        Associative(Utf8Char(s[0]), Utf8(s[1..]), [SEP]);
      }
    }
  }

  lemma {:induction false} AllPiecesBytes(fields: seq<string>)
    ensures TextBytes(AllPieces(fields)) == TextBytes(fields)
  {
    if fields != [] {
      PiecesBytes(fields[0]);
      AllPiecesBytes(fields[1..]);
      TextBytesAppend(Pieces(fields[0]), AllPieces(fields[1..]));
      assert fields == [fields[0]] + fields[1..];
      TextBytesNext(fields[0], fields[1..]);
    }
  }

  /** Exactly when lists of text fields have the same bytes: when cut at their
    * NULs they are the same. */
  lemma FieldsAgreeIff(ss: seq<string>, ts: seq<string>)
    ensures TextBytes(ss) == TextBytes(ts) <==> AllPieces(ss) == AllPieces(ts)
  {
    AllPiecesBytes(ss);
    AllPiecesBytes(ts);
    AllPiecesClean(ss);
    AllPiecesClean(ts);
    if TextBytes(ss) == TextBytes(ts) {
      TextFieldsInjective(AllPieces(ss), AllPieces(ts));
    }
  }

  /** Every field is at least one piece, and more if it holds a NUL. */
  lemma {:induction false} PieceCount(fields: seq<string>)
    ensures |AllPieces(fields)| >= |fields|
    ensures |AllPieces(fields)| == |fields| ==> forall i :: 0 <= i < |fields| ==> Clean(fields[i])
  {
    if fields != [] {
      PieceCount(fields[1..]);
      OnePieceClean(fields[0]);
    }
  }

  lemma {:induction false} OnePieceClean(s: string)
    ensures |Pieces(s)| == 1 ==> Clean(s)
  {
    if s != [] {
      OnePieceClean(s[1..]);
      assert s == [s[0]] + s[1..];
    }
  }

  /** A NUL within a field reads like the end of one. */
  lemma CutField(front: seq<string>, a: string, b: string, rest: seq<string>)
    ensures TextBytes(front + ([a + "\0" + b] + rest)) == TextBytes(front + ([a] + ([b] + rest)))
  {
    Utf8Nul(a, b);
    hide Utf8, TextBytes;
    TextBytesAppend(front, [a + "\0" + b] + rest);
    TextBytesAppend(front, [a] + ([b] + rest));
    TextBytesNext(a + "\0" + b, rest);
    TextBytesNext(a, [b] + rest);
    TextBytesNext(b, rest);
    NulEnds(Utf8(a), Utf8(b), TextBytes(rest));
  }

  lemma NulEnds(a: Bytes, b: Bytes, rest: Bytes)
    ensures (a + [SEP] + b) + [SEP] + rest == a + [SEP] + (b + [SEP] + rest)
  {
  }

  /** Text fields, each closed by a NUL, can be read back. */
  lemma TextFieldsInjective(ss: seq<string>, ts: seq<string>)
    requires forall i :: 0 <= i < |ss| ==> Clean(ss[i])
    requires forall i :: 0 <= i < |ts| ==> Clean(ts[i])
    requires TextBytes(ss) == TextBytes(ts)
    ensures ss == ts
  {
    forall i | 0 <= i < |ss| ensures NulFree(Texts(ss)[i]) { Utf8Clean(ss[i]); }
    forall i | 0 <= i < |ts| ensures NulFree(Texts(ts)[i]) { Utf8Clean(ts[i]); }
    TerminatedInjective(Texts(ss), Texts(ts));
    forall i | 0 <= i < |ss| ensures ss[i] == ts[i] { Utf8Injective(ss[i], ts[i]); }
  }
}
