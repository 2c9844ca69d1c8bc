/** How units, work items and derivations are named by strings, and when two of
  * them get one name. The scheduler modules compare the structured names; this
  * module shows that the strings tell them apart, and where they do not. */
module Naming {
  import opened Base
  import opened Types
  import opened Strings
  import opened Scheduler
  import opened Encoding
  import opened Canonical
  import opened Kernel
  import opened KernelRuns

  ghost predicate HexSha(sha: Sha) {
    forall b :: IsHex(sha(b))
  }

  // ---------------------------------------------------------------- unit keys

  function PairFields(pairs: seq<(string, string)>): seq<string> {
    if pairs == [] then [] else [pairs[0].0, pairs[0].1] + PairFields(pairs[1..])
  }

  /** What `input_key` hashes. */
  function PairBytes(pairs: seq<(string, string)>): Bytes {
    TextBytes(PairFields(pairs))
  }

  /** What `delivery_fingerprint` hashes. */
  function RowBytes(rows: seq<Row>): Bytes {
    if rows == [] then []
    else
      Utf8(rows[0].port) + [SEP]
      + (Utf8(rows[0].artifact) + [SEP] + (BE64(rows[0].generation) + ([SEP] + RowBytes(rows[1..]))))
  }

  const ONCE_PREFIX := "once:"
  const KEY_PREFIX := "key:"
  const ALWAYS_PREFIX := "always:"

  /** `work_unit_key`. */
  function UnitText(sha: Sha, u: UnitKey): string {
    match u
    case OnceUnit(node) => ONCE_PREFIX + node
    case KeyedUnit(node, pairs) => KEY_PREFIX + node + (":" + sha(PairBytes(pairs)))
    case DeliveryUnit(node, rows) => ALWAYS_PREFIX + node + (":" + sha(RowBytes(rows)))
  }

  predicate CleanUnit(u: UnitKey) {
    match u
    case OnceUnit(_) => true
    case KeyedUnit(_, pairs) => forall i :: 0 <= i < |pairs| ==> Clean(pairs[i].0) && Clean(pairs[i].1)
    case DeliveryUnit(_, rows) => forall i :: 0 <= i < |rows| ==>
      Clean(rows[i].port) && Clean(rows[i].artifact) && rows[i].generation <= U64_MAX
  }

  lemma {:induction false} PairFieldsInjective(ps: seq<(string, string)>, qs: seq<(string, string)>)
    requires PairFields(ps) == PairFields(qs)
    ensures ps == qs
  {
    if ps != [] && qs != [] {
      var f, g := PairFields(ps), PairFields(qs);
      assert f[0] == ps[0].0 && f[1] == ps[0].1 && g[0] == qs[0].0 && g[1] == qs[0].1;
      assert PairFields(ps[1..]) == f[2..] && PairFields(qs[1..]) == g[2..];
      PairFieldsInjective(ps[1..], qs[1..]);
      assert ps == [ps[0]] + ps[1..] && qs == [qs[0]] + qs[1..];
    }
  }

  lemma {:induction false} PairFieldsClean(ps: seq<(string, string)>)
    requires forall i :: 0 <= i < |ps| ==> Clean(ps[i].0) && Clean(ps[i].1)
    ensures AllClean(PairFields(ps))
  {
    if ps != [] {
      PairFieldsClean(ps[1..]);
    }
  }

  lemma PairBytesInjective(ps: seq<(string, string)>, qs: seq<(string, string)>)
    requires forall i :: 0 <= i < |ps| ==> Clean(ps[i].0) && Clean(ps[i].1)
    requires forall i :: 0 <= i < |qs| ==> Clean(qs[i].0) && Clean(qs[i].1)
    requires PairBytes(ps) == PairBytes(qs)
    ensures ps == qs
  {
    PairFieldsClean(ps);
    PairFieldsClean(qs);
    TextFieldsInjective(PairFields(ps), PairFields(qs));
    PairFieldsInjective(ps, qs);
  }

  lemma SplitRow(r: Row, rest: Bytes, s: Row, rest': Bytes)
    requires Clean(r.port) && Clean(r.artifact) && r.generation <= U64_MAX
    requires Clean(s.port) && Clean(s.artifact) && s.generation <= U64_MAX
    requires Utf8(r.port) + [SEP] + (Utf8(r.artifact) + [SEP] + (BE64(r.generation) + ([SEP] + rest)))
          == Utf8(s.port) + [SEP] + (Utf8(s.artifact) + [SEP] + (BE64(s.generation) + ([SEP] + rest')))
    ensures r == s && rest == rest'
  {
    var counted, counted' := BE64(r.generation) + ([SEP] + rest), BE64(s.generation) + ([SEP] + rest');
    SplitText(r.port, Utf8(r.artifact) + [SEP] + counted, s.port, Utf8(s.artifact) + [SEP] + counted');
    SplitText(r.artifact, counted, s.artifact, counted');
    SplitCount(r.generation, [SEP] + rest, s.generation, [SEP] + rest');
    assert rest == ([SEP] + rest)[1..] && rest' == ([SEP] + rest')[1..];
  }

  lemma {:induction false} RowBytesInjective(rs: seq<Row>, ss: seq<Row>)
    requires CleanUnit(DeliveryUnit("", rs)) && CleanUnit(DeliveryUnit("", ss)) && RowBytes(rs) == RowBytes(ss)
    ensures rs == ss
  {
    if rs != [] && ss != [] {
      SplitRow(rs[0], RowBytes(rs[1..]), ss[0], RowBytes(ss[1..]));
      RowBytesInjective(rs[1..], ss[1..]);
      assert rs == [rs[0]] + rs[1..] && ss == [ss[0]] + ss[1..];
    }
  }

  /** The bytes of sorted rows, row by row. */
  method WriteRows(rows: seq<Row>) returns (out: Bytes)
    ensures out == RowBytes(rows)
  {
    out := [];
    assert rows[0..] == rows;
    for i := 0 to |rows|
      invariant out + RowBytes(rows[i..]) == RowBytes(rows)
    {
      NextRow(rows, i, out);
      var row := Utf8(rows[i].port) + [SEP] + (Utf8(rows[i].artifact) + [SEP] + (BE64(rows[i].generation) + [SEP]));
      out := out + row;
    }
    assert rows[|rows|..] == [];
  }

  lemma NextRow(rows: seq<Row>, i: nat, out: Bytes)
    requires i < |rows|
    ensures out + RowBytes(rows[i..])
         == out + (Utf8(rows[i].port) + [SEP] + (Utf8(rows[i].artifact) + [SEP] + (BE64(rows[i].generation) + [SEP])))
            + RowBytes(rows[i + 1..])
  {
    assert rows[i..][0] == rows[i] && rows[i..][1..] == rows[i + 1..];
  }

  function Prepend(rows: seq<Row>, rest: Option<seq<Row>>): Option<seq<Row>> {
    if rest.None? then None else Some(rows + rest.value)
  }

  lemma RowsNext(slot: RunSlot, bs: seq<Binding>, inputs: seq<NamedArtifact>, i: nat, rows: seq<Row>)
    requires i < |bs|
    ensures var id := ArtifactNamed(inputs, bs[i].toPort);
      Prepend(rows, DeliveryRows(slot, bs[i..], inputs)) ==
        if id.None? then None
        else Prepend(rows + [Row(bs[i].toPort, id.value, Generation(slot, bs[i]))],
                     DeliveryRows(slot, bs[i + 1..], inputs))
  {
    assert bs[i..][0] == bs[i] && bs[i..][1..] == bs[i + 1..];
    var id, rest := ArtifactNamed(inputs, bs[i].toPort), DeliveryRows(slot, bs[i + 1..], inputs);
    if id.Some? && rest.Some? {
      var row := Row(bs[i].toPort, id.value, Generation(slot, bs[i]));
      assert rows + ([row] + rest.value) == rows + [row] + rest.value;
    }
  }

  method CollectRows(slot: RunSlot, bs: seq<Binding>, inputs: seq<NamedArtifact>) returns (rows: Option<seq<Row>>)
    ensures rows == DeliveryRows(slot, bs, inputs)
  {
    var list: seq<Row> := [];
    assert bs[0..] == bs;
    assert DeliveryRows(slot, bs, inputs).Some? ==>
      [] + DeliveryRows(slot, bs, inputs).value == DeliveryRows(slot, bs, inputs).value;
    for i := 0 to |bs|
      invariant DeliveryRows(slot, bs, inputs) == Prepend(list, DeliveryRows(slot, bs[i..], inputs))
    {
      RowsNext(slot, bs, inputs, i, list);
      var id := ArtifactNamed(inputs, bs[i].toPort);
      if id.None? {
        return None;
      }
      list := list + [Row(bs[i].toPort, id.value, Generation(slot, bs[i]))];
    }
    assert bs[|bs|..] == [] && list + [] == list;
    return Some(list);
  }

  /** `delivery_fingerprint`: a row per binding, sorted by port, written out. It
    * gives none exactly when some bound port has no artifact. */
  method DeliveryFingerprint(sha: Sha, slot: RunSlot, node: AssemblyNode, inputs: seq<NamedArtifact>)
    returns (fingerprint: Option<string>)
    ensures var rows := DeliveryRows(slot, BoundTo(slot, node), inputs);
      fingerprint == if rows.None? then None else Some(sha(RowBytes(SortRows(rows.value))))
    ensures fingerprint.Some? <==>
      forall b :: b in BoundTo(slot, node) ==> ArtifactNamed(inputs, b.toPort).Some?
  {
    var rows := CollectRows(slot, BoundTo(slot, node), inputs);
    if rows.None? {
      return None;
    }
    var out := WriteRows(SortRows(rows.value));
    return Some(sha(out));
  }

  /** The two units' key pairs, or their delivery rows, collide under the hash. */
  predicate UnitsClash(sha: Sha, u: UnitKey, v: UnitKey) {
    match (u, v)
    case (KeyedUnit(_, ps), KeyedUnit(_, qs)) => Collides(sha, PairBytes(ps), PairBytes(qs))
    case (DeliveryUnit(_, rs), DeliveryUnit(_, ss)) => Collides(sha, RowBytes(rs), RowBytes(ss))
    case _ => false
  }

  /** A digest has a fixed length, so what stands before it can be split off. */
  lemma SplitDigest(prefix: string, node: string, d: string, node': string, d': string)
    requires |d| == |d'| && prefix + node + (":" + d) == prefix + node' + (":" + d')
    ensures node == node' && d == d'
  {
    var x, y := prefix + node + (":" + d), prefix + node' + (":" + d');
    var n := |prefix| + |node|;
    assert |node| == |node'|;
    assert node == x[|prefix|..n] && node' == y[|prefix|..n];
    assert d == x[n + 1..] && d' == y[n + 1..];
  }

  lemma KindsDiffer(sha: Sha, u: UnitKey, v: UnitKey)
    requires UnitText(sha, u) == UnitText(sha, v)
    ensures (u.OnceUnit? <==> v.OnceUnit?) && (u.KeyedUnit? <==> v.KeyedUnit?)
  {
    var a, b := UnitText(sha, u), UnitText(sha, v);
    assert u.OnceUnit? ==> a[0] == 'o';
    assert u.KeyedUnit? ==> a[0] == 'k';
    assert u.DeliveryUnit? ==> a[0] == 'a';
    assert v.OnceUnit? ==> b[0] == 'o';
    assert v.KeyedUnit? ==> b[0] == 'k';
    assert v.DeliveryUnit? ==> b[0] == 'a';
  }

  /** Unit keys name their units, whatever the node ids, up to a hash collision. */
  lemma UnitTextInjective(sha: Sha, u: UnitKey, v: UnitKey)
    requires HexSha(sha) && CleanUnit(u) && CleanUnit(v) && UnitText(sha, u) == UnitText(sha, v)
    ensures u == v || UnitsClash(sha, u, v)
  {
    KindsDiffer(sha, u, v);
    match (u, v)
    case (OnceUnit(a), OnceUnit(b)) =>
      assert a == UnitText(sha, u)[|ONCE_PREFIX|..] && b == UnitText(sha, v)[|ONCE_PREFIX|..];
    case (KeyedUnit(a, ps), KeyedUnit(b, qs)) =>
      assert IsHex(sha(PairBytes(ps))) && IsHex(sha(PairBytes(qs)));
      SplitDigest(KEY_PREFIX, a, sha(PairBytes(ps)), b, sha(PairBytes(qs)));
      if PairBytes(ps) == PairBytes(qs) {
        PairBytesInjective(ps, qs);
      }
    case (DeliveryUnit(a, rs), DeliveryUnit(b, ss)) =>
      assert IsHex(sha(RowBytes(rs))) && IsHex(sha(RowBytes(ss)));
      SplitDigest(ALWAYS_PREFIX, a, sha(RowBytes(rs)), b, sha(RowBytes(ss)));
      if RowBytes(rs) == RowBytes(ss) {
        RowBytesInjective(rs, ss);
      }
    case _ =>
  }

  // ---------------------------------------------------------------- work ids

  /** ONCE units go by their node id alone; others by their whole key. */
  function WorkLabel(sha: Sha, u: UnitKey): string {
    if u.OnceUnit? then u.node else UnitText(sha, u)
  }

  function WorkText(sha: Sha, w: WorkId): string {
    "work:" + w.run + ("/" + WorkLabel(sha, w.unit))
  }

  /** A ONCE node is named like another unit's key. */
  predicate Shadows(sha: Sha, u: UnitKey, v: UnitKey) {
    u.OnceUnit? && !v.OnceUnit? && u.node == UnitText(sha, v)
  }

  lemma SameRunLabels(sha: Sha, run: string, u: UnitKey, v: UnitKey)
    ensures WorkText(sha, WorkId(run, u)) == WorkText(sha, WorkId(run, v)) <==> WorkLabel(sha, u) == WorkLabel(sha, v)
  {
    var n := |"work:" + run| + 1;
    assert WorkLabel(sha, u) == WorkText(sha, WorkId(run, u))[n..];
    assert WorkLabel(sha, v) == WorkText(sha, WorkId(run, v))[n..];
  }

  /** Within a run, and short of a hash collision, two units share a work id
    * exactly when one is a ONCE node that is named like the other's key. */
  lemma WorkIdsAgree(sha: Sha, run: string, u: UnitKey, v: UnitKey)
    requires HexSha(sha) && CleanUnit(u) && CleanUnit(v) && !UnitsClash(sha, u, v)
    ensures WorkText(sha, WorkId(run, u)) == WorkText(sha, WorkId(run, v))
       <==> u == v || Shadows(sha, u, v) || Shadows(sha, v, u)
  {
    SameRunLabels(sha, run, u, v);
    if UnitText(sha, u) == UnitText(sha, v) {
      UnitTextInjective(sha, u, v);
    }
  }

  /** The guard that rules shadowing out: no node id starts like a unit key. */
  predicate PlainNode(node: string) {
    !(KEY_PREFIX <= node) && !(ALWAYS_PREFIX <= node)
  }

  lemma PlainNodesDoNotShadow(sha: Sha, u: UnitKey, v: UnitKey)
    requires PlainNode(u.node)
    ensures !Shadows(sha, u, v)
  {
    match v
    case KeyedUnit(node, pairs) => assert KEY_PREFIX <= UnitText(sha, v);
    case DeliveryUnit(node, rows) => assert ALWAYS_PREFIX <= UnitText(sha, v);
    case _ =>
  }

  /** Without the guard there are such nodes, whatever the hash. */
  lemma ShadowedUnit(sha: Sha, run: string)
    ensures var v := KeyedUnit("n", []);
      var u := OnceUnit(UnitText(sha, v));
      u != v && WorkText(sha, WorkId(run, u)) == WorkText(sha, WorkId(run, v))
  {
    var v := KeyedUnit("n", []);
    SameRunLabels(sha, run, OnceUnit(UnitText(sha, v)), v);
  }

  // ---------------------------------------------------------------- derivation ids

  function ItemFields(items: seq<NamedArtifact>): seq<string> {
    if items == [] then []
    else [items[0].name, if items[0].artifact.Some? then items[0].artifact.value else ""] + ItemFields(items[1..])
  }

  function DerivationFields(sha: Sha, d: Derivation): seq<string> {
    [d.work.run, WorkText(sha, d.work), d.node.id, d.node.mod, d.node.version, d.node.capability]
    + ItemFields(d.inputs + d.outputs)
  }

  /** What `derivation_id` hashes. */
  function DerivationBytes(sha: Sha, d: Derivation): Bytes {
    TextBytes(DerivationFields(sha, d))
  }

  function DerivationId(sha: Sha, d: Derivation): string {
    DIGEST_PREFIX + sha(DerivationBytes(sha, d))
  }

  predicate CleanDerivation(sha: Sha, d: Derivation) {
    AllClean(DerivationFields(sha, d)) && CleanUnit(d.work.unit) && PlainNode(d.work.unit.node)
  }

  /** Different work makes different ids. */
  lemma DifferentWork(sha: Sha, d: Derivation, e: Derivation)
    requires HexSha(sha) && CleanDerivation(sha, d) && CleanDerivation(sha, e) && d.work != e.work
    requires !UnitsClash(sha, d.work.unit, e.work.unit)
    ensures DerivationId(sha, d) != DerivationId(sha, e)
         || Collides(sha, DerivationBytes(sha, d), DerivationBytes(sha, e))
  {
    if DerivationBytes(sha, d) == DerivationBytes(sha, e) {
      var fs, gs := DerivationFields(sha, d), DerivationFields(sha, e);
      TextFieldsInjective(fs, gs);
      assert fs[0] == gs[0] && fs[1] == gs[1];
      WorkIdsAgree(sha, d.work.run, d.work.unit, e.work.unit);
      PlainNodesDoNotShadow(sha, d.work.unit, e.work.unit);
      PlainNodesDoNotShadow(sha, e.work.unit, d.work.unit);
      assert false;
    } else if DerivationId(sha, d) == DerivationId(sha, e) {
      PrefixedEqual(sha(DerivationBytes(sha, d)), sha(DerivationBytes(sha, e)));
    }
  }

  lemma {:induction false} RunHolds(ds: seq<Derivation>, i: nat)
    requires i < |ds|
    ensures ds[i] in DerivationsOf(ds, ds[i].work.run)
  {
    if i < |ds| - 1 {
      RunHolds(ds[..|ds| - 1], i);
    }
  }

  ghost predicate WorkDistinct(ds: seq<Derivation>) {
    forall i, j :: 0 <= i < j < |ds| ==> ds[i].work != ds[j].work
  }

  /** Work committed once per run is committed once. */
  lemma {:induction false} CommittedOnceOverall(ds: seq<Derivation>, i: nat, j: nat)
    requires i < j < |ds| && WorkDistinct(DerivationsOf(ds, ds[j].work.run))
    ensures ds[i].work != ds[j].work
  {
    var n := |ds| - 1;
    var front := ds[..n];
    var r := ds[j].work.run;
    var filtered := DerivationsOf(front, r);
    forall x, y | 0 <= x < y < |filtered|
      ensures filtered[x].work != filtered[y].work
    {
      assert filtered[x] == DerivationsOf(ds, r)[x] && filtered[y] == DerivationsOf(ds, r)[y];
    }
    if j < n {
      CommittedOnceOverall(front, i, j);
    } else if ds[i].work.run == r {
      RunHolds(front, i);
      var x :| 0 <= x < |filtered| && filtered[x] == ds[i];
      assert DerivationsOf(ds, r)[x] == ds[i] && DerivationsOf(ds, r)[|filtered|] == ds[j];
    }
  }

  /** All derivations a kernel ever commits, over all its runs, get different
    * ids, or two of them exhibit a hash collision. */
  lemma DerivationIdsDistinct(sha: Sha, config: Config, calls: seq<Call>, i: nat, j: nat)
    requires HexSha(sha) && i < j < |After(config, calls).derivations|
    requires var ds := After(config, calls).derivations;
      CleanDerivation(sha, ds[i]) && CleanDerivation(sha, ds[j])
    ensures var d, e := After(config, calls).derivations[i], After(config, calls).derivations[j];
      DerivationId(sha, d) != DerivationId(sha, e) || UnitsClash(sha, d.work.unit, e.work.unit)
      || Collides(sha, DerivationBytes(sha, d), DerivationBytes(sha, e))
  {
    var state := After(config, calls);
    HistoryIsGenuine(config, calls);
    var r := state.derivations[j].work.run;
    KernelRunsAreSound(config, calls, r);
    CommittedOnceOverall(state.derivations, i, j);
    if !UnitsClash(sha, state.derivations[i].work.unit, state.derivations[j].work.unit) {
      DifferentWork(sha, state.derivations[i], state.derivations[j]);
    }
  }

  /** How ids are spelled. */
  lemma IdsSpelled(sha: Sha, run: string, node: string, pairs: seq<(string, string)>, rows: seq<Row>)
    ensures WorkText(sha, WorkId(run, OnceUnit(node))) == "work:" + run + ("/" + node)
    ensures WorkText(sha, WorkId(run, KeyedUnit(node, pairs)))
         == "work:" + run + ("/" + ("key:" + node + (":" + sha(PairBytes(pairs)))))
    ensures WorkText(sha, WorkId(run, DeliveryUnit(node, rows)))
         == "work:" + run + ("/" + ("always:" + node + (":" + sha(RowBytes(rows)))))
    ensures UnitText(sha, OnceUnit(node)) == "once:" + node
  {
  }
}
