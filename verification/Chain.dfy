/** The hash-chained ledger: what appending and verifying do, and why a verified
  * chain cannot be altered unnoticed. */
module Chain {
  import opened Base
  import opened Encoding
  import opened Canonical
  import opened Kernel

  datatype LedgerEntry = LedgerEntry(
    number: nat, kind: string, subject: string, detail: Bytes, prevHash: string, hash: string)

  /** The bytes an entry's hash covers. */
  function Preimage(number: nat, kind: string, subject: string, detail: Bytes, prevHash: string): Bytes {
    BE64(number) + ([SEP] + (Utf8(kind) + [SEP] + (Utf8(subject) + [SEP] + (detail + [SEP] + Utf8(prevHash)))))
  }

  function HashedBytes(e: LedgerEntry): Bytes {
    Preimage(e.number, e.kind, e.subject, e.detail, e.prevHash)
  }

  function PreviousHash(entries: seq<LedgerEntry>): string {
    if entries == [] then "" else entries[|entries| - 1].hash
  }

  /** The entry at this place links to the one before it and hashes itself. */
  predicate LinkedAt(sha: Sha, entries: seq<LedgerEntry>, i: nat)
    requires i < |entries|
  {
    entries[i].number == i && entries[i].prevHash == PreviousHash(entries[..i])
    && entries[i].hash == sha(HashedBytes(entries[i]))
  }

  ghost predicate Linked(sha: Sha, entries: seq<LedgerEntry>) {
    forall i :: 0 <= i < |entries| ==> LinkedAt(sha, entries, i)
  }

  /** The entry is numbered by its place, names the hash of the one before it, the first the
    * empty one, and hashes its own fields. */
  ghost predicate InPlace(sha: Sha, entries: seq<LedgerEntry>, i: nat)
    requires i < |entries|
  {
    var e := entries[i];
    e.number == i && e.prevHash == (if i == 0 then "" else entries[i - 1].hash)
    && e.hash == sha(Preimage(i, e.kind, e.subject, e.detail, e.prevHash))
  }

  /** What a verifying chain is, entry by entry. */
  lemma LinkedIff(sha: Sha, entries: seq<LedgerEntry>)
    ensures Linked(sha, entries) <==> forall i :: 0 <= i < |entries| ==> InPlace(sha, entries, i)
  {
    forall i | 0 <= i < |entries|
      ensures LinkedAt(sha, entries, i) <==> InPlace(sha, entries, i)
    {
      assert i > 0 ==> entries[..i][i - 1] == entries[i - 1];
    }
  }

  /** `verify_chain`: walk the entries with the last hash seen. */
  method VerifyChain(sha: Sha, entries: seq<LedgerEntry>) returns (ok: bool)
    ensures ok <==> Linked(sha, entries)
  {
    var prev := "";
    for i := 0 to |entries|
      invariant prev == PreviousHash(entries[..i])
      invariant forall j :: 0 <= j < i ==> LinkedAt(sha, entries, j)
    {
      var e := entries[i];
      if e.number != i || e.prevHash != prev {
        assert !LinkedAt(sha, entries, i);
        return false;
      }
      if sha(HashedBytes(e)) != e.hash {
        assert !LinkedAt(sha, entries, i);
        return false;
      }
      prev := e.hash;
    }
    return true;
  }

  /** The next entry of a ledger. */
  function Seal(sha: Sha, entries: seq<LedgerEntry>, kind: string, subject: string, detail: Bytes): LedgerEntry {
    var prev := PreviousHash(entries);
    LedgerEntry(|entries|, kind, subject, detail, prev, sha(Preimage(|entries|, kind, subject, detail, prev)))
  }

  lemma SealLinks(sha: Sha, entries: seq<LedgerEntry>, kind: string, subject: string, detail: Bytes)
    requires Linked(sha, entries)
    ensures Linked(sha, entries + [Seal(sha, entries, kind, subject, detail)])
  {
    var longer := entries + [Seal(sha, entries, kind, subject, detail)];
    forall i | 0 <= i < |longer|
      ensures LinkedAt(sha, longer, i)
    {
      if i < |entries| {
        assert LinkedAt(sha, entries, i);
        assert longer[..i] == entries[..i];
      } else {
        assert longer[..i] == entries;
      }
    }
  }

  /** The one list entries are ever appended to. */
  class Ledger {
    const sha: Sha
    var entries: seq<LedgerEntry>

    ghost predicate Valid()
      reads this
    {
      Linked(sha, entries)
    }

    constructor (sha: Sha)
      ensures Valid() && entries == [] && this.sha == sha
    {
      this.sha := sha;
      entries := [];
    }

    /** `append_locked`. */
    method Append(kind: string, subject: string, detail: Bytes) returns (entry: LedgerEntry)
      requires Valid()
      modifies this
      ensures Valid() && entries == old(entries) + [entry]
      ensures entry.kind == kind && entry.subject == subject && entry.detail == detail
      ensures entry.number == |old(entries)| && entry.prevHash == PreviousHash(old(entries))
    {
      var number := |entries|;
      var prev := if number == 0 then "" else entries[number - 1].hash;
      entry := LedgerEntry(number, kind, subject, detail, prev, sha(Preimage(number, kind, subject, detail, prev)));
      SealLinks(sha, entries, kind, subject, detail);
      entries := entries + [entry];
    }

    /** `verify_ledger`: a kernel's own ledger always verifies. */
    method Verify() returns (ok: bool)
      requires Valid()
      ensures ok
    {
      ok := VerifyChain(sha, entries);
    }
  }

  // ---------------------------------------------------------------- the kernel's ledger

  /** How a payload is written down; protobuf gives the detail bytes. */
  datatype Inscription = Inscription(kind: string, subject: string, detail: Bytes)

  type Scribe = Payload -> Inscription

  /** The chained form of a kernel's ledger. */
  function Inscribe(sha: Sha, scribe: Scribe, ledger: seq<Payload>): seq<LedgerEntry> {
    if ledger == [] then []
    else
      var entries := Inscribe(sha, scribe, ledger[..|ledger| - 1]);
      var i := scribe(ledger[|ledger| - 1]);
      entries + [Seal(sha, entries, i.kind, i.subject, i.detail)]
  }

  /** Whatever a kernel records, its chain verifies. */
  lemma {:induction false} InscribedVerifies(sha: Sha, scribe: Scribe, ledger: seq<Payload>)
    ensures Linked(sha, Inscribe(sha, scribe, ledger)) && |Inscribe(sha, scribe, ledger)| == |ledger|
  {
    if ledger != [] {
      var front := ledger[..|ledger| - 1];
      var i := scribe(ledger[|ledger| - 1]);
      InscribedVerifies(sha, scribe, front);
      SealLinks(sha, Inscribe(sha, scribe, front), i.kind, i.subject, i.detail);
    }
  }

  // ---------------------------------------------------------------- tamper evidence

  predicate CleanEntry(e: LedgerEntry) {
    e.number <= U64_MAX && Clean(e.kind) && Clean(e.subject) && Clean(e.prevHash)
  }

  /** Kind, subject and the previous hash hold no NUL; the detail is any bytes. */
  lemma PreimageInjective(e: LedgerEntry, f: LedgerEntry)
    requires CleanEntry(e) && CleanEntry(f) && HashedBytes(e) == HashedBytes(f)
    ensures e.(hash := "") == f.(hash := "")
  {
    var last, last' := e.detail + [SEP] + Utf8(e.prevHash), f.detail + [SEP] + Utf8(f.prevHash);
    var rest, rest' := Utf8(e.subject) + [SEP] + last, Utf8(f.subject) + [SEP] + last';
    var more, more' := Utf8(e.kind) + [SEP] + rest, Utf8(f.kind) + [SEP] + rest';
    SplitCount(e.number, [SEP] + more, f.number, [SEP] + more');
    assert more == ([SEP] + more)[1..] && more' == ([SEP] + more')[1..];
    SplitText(e.kind, rest, f.kind, rest');
    SplitText(e.subject, last, f.subject, last');
    Utf8Clean(e.prevHash);
    Utf8Clean(f.prevHash);
    SplitLast(e.detail, Utf8(e.prevHash), f.detail, Utf8(f.prevHash));
    Utf8Injective(e.prevHash, f.prevHash);
  }

  /** Two entries of the two ledgers that would collide under the hash. */
  ghost predicate CollidingEntries(sha: Sha, a: seq<LedgerEntry>, b: seq<LedgerEntry>) {
    exists i, j :: 0 <= i < |a| && 0 <= j < |b| && Collides(sha, HashedBytes(a[i]), HashedBytes(b[j]))
  }

  ghost predicate CleanLedger(entries: seq<LedgerEntry>) {
    forall i :: 0 <= i < |entries| ==> CleanEntry(entries[i])
  }

  lemma LinkedPrefix(sha: Sha, entries: seq<LedgerEntry>, n: nat)
    requires Linked(sha, entries) && CleanLedger(entries) && n <= |entries|
    ensures Linked(sha, entries[..n]) && CleanLedger(entries[..n])
  {
    forall i | 0 <= i < n
      ensures LinkedAt(sha, entries[..n], i)
    {
      assert LinkedAt(sha, entries, i);
      assert entries[..n][..i] == entries[..i];
    }
  }

  lemma TipsEqual(sha: Sha, a: seq<LedgerEntry>, b: seq<LedgerEntry>)
    requires Linked(sha, a) && Linked(sha, b) && CleanLedger(a) && CleanLedger(b)
    requires a != [] && b != [] && PreviousHash(a) == PreviousHash(b) && !CollidingEntries(sha, a, b)
    ensures |a| == |b| && a[|a| - 1] == b[|b| - 1]
    ensures PreviousHash(a[..|a| - 1]) == PreviousHash(b[..|b| - 1])
  {
    var m, n := |a| - 1, |b| - 1;
    assert LinkedAt(sha, a, m) && LinkedAt(sha, b, n);
    assert !Collides(sha, HashedBytes(a[m]), HashedBytes(b[n]));
    PreimageInjective(a[m], b[n]);
    assert a[m] == a[m].(hash := "").(hash := a[m].hash);
  }

  lemma StillColliding(sha: Sha, a: seq<LedgerEntry>, b: seq<LedgerEntry>, n: nat)
    requires n <= |a| && n <= |b|
    ensures CollidingEntries(sha, a[..n], b[..n]) ==> CollidingEntries(sha, a, b)
  {
    if CollidingEntries(sha, a[..n], b[..n]) {
      var i, j :| 0 <= i < n && 0 <= j < n && Collides(sha, HashedBytes(a[..n][i]), HashedBytes(b[..n][j]));
      assert Collides(sha, HashedBytes(a[i]), HashedBytes(b[j]));
    }
  }

  /** Tamper evidence: two verifying ledgers that end in one hash agree entry by
    * entry, or hold two entries with different bytes and one digest. */
  lemma {:induction false} TamperEvident(sha: Sha, a: seq<LedgerEntry>, b: seq<LedgerEntry>)
    requires Linked(sha, a) && Linked(sha, b) && CleanLedger(a) && CleanLedger(b)
    requires a != [] && b != [] && PreviousHash(a) == PreviousHash(b)
    ensures a == b || CollidingEntries(sha, a, b)
    decreases |a|
  {
    if !CollidingEntries(sha, a, b) {
      hide LinkedAt, Collides, CleanEntry;
      TipsEqual(sha, a, b);
      var n := |a| - 1;
      var front, front' := a[..n], b[..n];
      assert a == front + [a[n]] && b == front' + [b[n]];
      if n > 0 {
        LinkedPrefix(sha, a, n);
        LinkedPrefix(sha, b, n);
        TamperEvident(sha, front, front');
        StillColliding(sha, a, b, n);
      }
    }
  }

  /** Where kind and subject may hold NULs, the covered bytes do not say where
    * one ends: different entries, one hash, whatever the hash. */
  lemma NulsBlurFields(number: nat, kind: string, middle: string, subject: string, detail: Bytes, prev: string)
    ensures Preimage(number, kind + "\0" + middle, subject, detail, prev)
         == Preimage(number, kind, middle + "\0" + subject, detail, prev)
  {
    Utf8Nul(kind, middle);
    Utf8Nul(middle, subject);
    Regroup(Utf8(kind), Utf8(middle), Utf8(subject), detail + [SEP] + Utf8(prev));
  }

  /** A NUL in the subject likewise hands the rest of it to the detail. */
  lemma NulsBlurDetail(number: nat, kind: string, subject: string, rest: string, detail: Bytes, prev: string)
    ensures Preimage(number, kind, subject + "\0" + rest, detail, prev)
         == Preimage(number, kind, subject, Utf8(rest) + [SEP] + detail, prev)
  {
    Utf8Nul(subject, rest);
    Regroup(Utf8(subject), Utf8(rest), detail, Utf8(prev));
  }

  lemma Regroup(k: Bytes, m: Bytes, s: Bytes, rest: Bytes)
    ensures (k + [SEP] + m) + [SEP] + (s + [SEP] + rest) == k + [SEP] + ((m + [SEP] + s) + [SEP] + rest)
  {
    Associative(k + [SEP], m, [SEP] + (s + [SEP] + rest));
    Associative(m + [SEP], s, [SEP] + rest);
    assert (k + [SEP] + m) + [SEP] + (s + [SEP] + rest) == (k + [SEP] + m) + ([SEP] + (s + [SEP] + rest));
    assert (m + [SEP] + s) + [SEP] + rest == (m + [SEP] + s) + ([SEP] + rest);
    assert (m + [SEP]) + (s + ([SEP] + rest)) == m + ([SEP] + (s + [SEP] + rest));
  }

  /** An entry whose kind or subject holds a NUL has a clean twin: another entry
    * with the same number and predecessor that hashes the same bytes. */
  lemma CleanTwin(e: LedgerEntry) returns (f: LedgerEntry)
    requires !Clean(e.kind) || !Clean(e.subject)
    ensures Clean(f.kind) && Clean(f.subject) && f.number == e.number && f.prevHash == e.prevHash
    ensures HashedBytes(f) == HashedBytes(e) && (f.kind != e.kind || f.subject != e.subject)
  {
    f := e;
    if !Clean(e.kind) {
      var front, back := FirstNul(e.kind);
      NulsBlurFields(e.number, front, back, e.subject, e.detail, e.prevHash);
      f := e.(kind := front, subject := back + "\0" + e.subject);
      assert !Clean(e.kind) && Clean(front);
    }
    var moved := f;
    if !Clean(moved.subject) {
      var front, back := FirstNul(moved.subject);
      NulsBlurDetail(e.number, moved.kind, front, back, e.detail, e.prevHash);
      f := moved.(subject := front, detail := Utf8(back) + [SEP] + e.detail);
      assert !Clean(moved.subject) && Clean(front);
    }
  }

  /** The hashed bytes of the entry are those of no other clean entry. */
  ghost predicate ToldApart(e: LedgerEntry) {
    forall f :: CleanEntry(f) && HashedBytes(f) == HashedBytes(e) ==> f.(hash := "") == e.(hash := "")
  }

  /** Exactly when hashing tells an entry apart from every clean one: when its own
    * kind and subject hold no NUL. */
  lemma ToldApartIff(e: LedgerEntry)
    requires e.number <= U64_MAX && Clean(e.prevHash)
    ensures ToldApart(e) <==> Clean(e.kind) && Clean(e.subject)
  {
    if Clean(e.kind) && Clean(e.subject) {
      forall f | CleanEntry(f) && HashedBytes(f) == HashedBytes(e)
        ensures f.(hash := "") == e.(hash := "")
      {
        PreimageInjective(f, e);
      }
    } else {
      var f := CleanTwin(e);
      assert CleanEntry(f) && f.(hash := "") != e.(hash := "");
    }
  }
}
