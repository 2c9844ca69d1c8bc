/** Cross-run memoisation: the key of a work unit, what a record keeps, and when
  * committing a record is committing what the plugin would have produced. */
module Memo {
  import opened Base
  import opened Types
  import opened Strings
  import opened Scheduler
  import opened Encoding
  import opened Canonical
  import opened Kernel
  import opened Seeds

  /** Everything a memoised step may depend on. The source hashes it to a string. */
  datatype MemoKey = MemoKey(mod: string, version: string, digest: string, capability: string,
      inputs: map<string, string>)

  // ---------------------------------------------------------------- keys

  function InputTraits(inputs: map<string, string>): map<string, Trait> {
    map p | p in inputs :: Trait(Utf8(inputs[p]), None)
  }

  /** What `memo_key` hashes: four fields, then port and artifact of each input
    * in ascending order of port, each closed by a NUL. */
  ghost function KeyBytes(key: MemoKey): Bytes {
    TextBytes([key.mod, key.version, key.digest, key.capability]) + CanonicalBytes(Bag(InputTraits(key.inputs)))
  }

  method MemoKeyBytes(key: MemoKey) returns (out: Bytes)
    ensures out == KeyBytes(key)
  {
    var inputs := ArtifactCanonicalBytes(InputTraits(key.inputs));
    out := TextBytes([key.mod, key.version, key.digest, key.capability]) + inputs;
  }

  predicate CleanKey(key: MemoKey) {
    && AllClean([key.mod, key.version, key.digest, key.capability])
    && forall p :: p in key.inputs ==> p != "" && Clean(p) && Clean(key.inputs[p])
  }

  lemma {:induction false} SplitFields(fs: seq<Bytes>, rest: Bytes, gs: seq<Bytes>, rest': Bytes)
    requires |fs| == |gs| && Terminated(fs) + rest == Terminated(gs) + rest'
    requires forall i :: 0 <= i < |fs| ==> NulFree(fs[i]) && NulFree(gs[i])
    ensures fs == gs && rest == rest'
  {
    if fs != [] {
      Associative(fs[0] + [SEP], Terminated(fs[1..]), rest);
      Associative(gs[0] + [SEP], Terminated(gs[1..]), rest');
      SplitField(fs[0], Terminated(fs[1..]) + rest, gs[0], Terminated(gs[1..]) + rest');
      SplitFields(fs[1..], rest, gs[1..], rest');
      assert fs == [fs[0]] + fs[1..] && gs == [gs[0]] + gs[1..];
    } else {
      assert Terminated(fs) + rest == rest && Terminated(gs) + rest' == rest';
    }
  }

  lemma InputsReadBack(a: map<string, string>, b: map<string, string>)
    requires Bag(InputTraits(a)) == Bag(InputTraits(b))
    ensures a == b
  {
    assert a.Keys == Bag(InputTraits(a)).Keys && b.Keys == Bag(InputTraits(b)).Keys;
    forall p | p in a
      ensures p in b && a[p] == b[p]
    {
      assert Bag(InputTraits(a))[p] == Inline(Utf8(a[p])) && Bag(InputTraits(b))[p] == Inline(Utf8(b[p]));
      Utf8Injective(a[p], b[p]);
    }
  }

  lemma CleanKeyPlain(key: MemoKey)
    requires CleanKey(key)
    ensures PlainBag(Bag(InputTraits(key.inputs)))
  {
    forall p | p in key.inputs
      ensures NulFree(Utf8(key.inputs[p]))
    {
      Utf8Clean(key.inputs[p]);
    }
  }

  /** Different work has different key bytes. */
  lemma MemoKeyInjective(a: MemoKey, b: MemoKey)
    requires CleanKey(a) && CleanKey(b) && KeyBytes(a) == KeyBytes(b)
    ensures a == b
  {
    var ss, ts := [a.mod, a.version, a.digest, a.capability], [b.mod, b.version, b.digest, b.capability];
    forall i | 0 <= i < 4
      ensures NulFree(Texts(ss)[i]) && NulFree(Texts(ts)[i])
    {
      Utf8Clean(ss[i]);
      Utf8Clean(ts[i]);
    }
    SplitFields(Texts(ss), CanonicalBytes(Bag(InputTraits(a.inputs))), Texts(ts),
                CanonicalBytes(Bag(InputTraits(b.inputs))));
    TextFieldsInjective(ss, ts);
    CleanKeyPlain(a);
    CleanKeyPlain(b);
    CanonicalInjective(Bag(InputTraits(a.inputs)), Bag(InputTraits(b.inputs)));
    InputsReadBack(a.inputs, b.inputs);
    assert a.mod == ss[0] && a.version == ss[1] && a.digest == ss[2] && a.capability == ss[3];
  }

  // ---------------------------------------------------------------- exactly which keys share their bytes

  function PortTexts(inputs: map<string, string>, ports: seq<string>): seq<string>
    requires forall i :: 0 <= i < |ports| ==> ports[i] in inputs
  {
    if ports == [] then [] else [ports[0]] + ([inputs[ports[0]]] + PortTexts(inputs, ports[1..]))
  }

  /** All fields of a key, in the order in which they are hashed. */
  ghost function KeyFields(key: MemoKey): seq<string> {
    [key.mod, key.version, key.digest, key.capability] + PortTexts(key.inputs, Listing(key.inputs.Keys))
  }

  lemma {:induction false} PortBytes(inputs: map<string, string>, ports: seq<string>)
    requires forall i :: 0 <= i < |ports| ==> ports[i] in inputs
    ensures EncodeInOrder(Bag(InputTraits(inputs)), ports) == TextBytes(PortTexts(inputs, ports))
  {
    if ports != [] {
      var rest := PortTexts(inputs, ports[1..]);
      PortBytes(inputs, ports[1..]);
      TextBytesNext(ports[0], [inputs[ports[0]]] + rest);
      TextBytesNext(inputs[ports[0]], rest);
    }
  }

  lemma KeyBytesAreFields(key: MemoKey)
    ensures KeyBytes(key) == TextBytes(KeyFields(key))
  {
    var ports := Listing(key.inputs.Keys);
    assert Bag(InputTraits(key.inputs)).Keys == key.inputs.Keys;
    PortBytes(key.inputs, ports);
    TextBytesAppend([key.mod, key.version, key.digest, key.capability], PortTexts(key.inputs, ports));
  }

  /** Exactly when two keys are hashed alike: when their fields, cut at their NULs,
    * are the same. */
  lemma MemoKeysAgreeIff(a: MemoKey, b: MemoKey)
    ensures KeyBytes(a) == KeyBytes(b) <==> AllPieces(KeyFields(a)) == AllPieces(KeyFields(b))
  {
    KeyBytesAreFields(a);
    KeyBytesAreFields(b);
    FieldsAgreeIff(KeyFields(a), KeyFields(b));
  }

  // ---------------------------------------------------------------- ports and artifacts

  /** Port to artifact, the last of each name; unnamed and empty refs left out.
    * `input_fingerprint_map`, and the outputs of `build_record`. */
  function PortMap(items: seq<NamedArtifact>): map<string, string> {
    if items == [] then map[]
    else
      var front, last := PortMap(items[..|items| - 1]), items[|items| - 1];
      if last.artifact.Some? && last.name != "" && last.artifact.value != ""
      then front[last.name := last.artifact.value]
      else front
  }

  method CollectPorts(items: seq<NamedArtifact>) returns (ports: map<string, string>)
    ensures ports == PortMap(items)
  {
    ports := map[];
    for i := 0 to |items|
      invariant ports == PortMap(items[..i])
    {
      assert items[..i + 1][..i] == items[..i];
      var na := items[i];
      if na.artifact.Some? && na.name != "" && na.artifact.value != "" {
        ports := ports[na.name := na.artifact.value];
      }
    }
    assert items[..|items|] == items;
  }

  /** The item gives the port an artifact. */
  predicate Fills(item: NamedArtifact, port: string) {
    item.name == port && port != "" && item.artifact.Some? && item.artifact.value != ""
  }

  /** The last item that does. */
  predicate LastFills(items: seq<NamedArtifact>, port: string, i: int) {
    0 <= i < |items| && Fills(items[i], port) && forall j :: i < j < |items| ==> !Fills(items[j], port)
  }

  /** A port is listed exactly when some item fills it, with the artifact of the last one
    * that does; an unnamed item or an empty ref takes nothing away. */
  lemma {:induction false} PortMapIff(items: seq<NamedArtifact>, port: string)
    ensures port in PortMap(items) <==> exists i :: 0 <= i < |items| && Fills(items[i], port)
    ensures port in PortMap(items) ==>
      exists i :: LastFills(items, port, i) && PortMap(items)[port] == items[i].artifact.value
  {
    if items != [] {
      var n := |items| - 1;
      var front := items[..n];
      PortMapIff(front, port);
      assert forall i :: 0 <= i < n ==> front[i] == items[i];
      if Fills(items[n], port) {
        assert LastFills(items, port, n);
      } else if port in PortMap(front) {
        var i :| LastFills(front, port, i) && PortMap(front)[port] == front[i].artifact.value;
        assert LastFills(items, port, i);
      }
    }
  }

  /** Every item has a name and an artifact. */
  predicate Filled(items: seq<NamedArtifact>) {
    forall i :: 0 <= i < |items| ==> items[i].name != "" && items[i].artifact.Some? && items[i].artifact.value != ""
  }

  lemma {:induction false} PortMapIsLast(items: seq<NamedArtifact>, port: string)
    requires Filled(items)
    ensures port in PortMap(items) <==> LastNamed(items, port).Some?
    ensures port in PortMap(items) ==>
      LastNamed(items, port).value == NamedArtifact(port, Some(PortMap(items)[port]))
  {
    if items != [] {
      PortMapIsLast(items[..|items| - 1], port);
    }
  }

  function NamedIn(ports: map<string, string>, keys: seq<string>): (r: seq<NamedArtifact>)
    requires forall i :: 0 <= i < |keys| ==> keys[i] in ports
    ensures |r| == |keys| && forall i :: 0 <= i < |r| ==> r[i] == NamedArtifact(keys[i], Some(ports[keys[i]]))
  {
    if keys == [] then [] else [NamedArtifact(keys[0], Some(ports[keys[0]]))] + NamedIn(ports, keys[1..])
  }

  /** A record's outputs, ready to commit, in ascending order of port. */
  ghost function RecordOutputs(ports: map<string, string>): seq<NamedArtifact> {
    NamedIn(ports, Listing(ports.Keys))
  }

  /** `record_to_named_outputs`. */
  method RecordToNamedOutputs(ports: map<string, string>) returns (outputs: seq<NamedArtifact>)
    ensures outputs == RecordOutputs(ports)
  {
    var keys := Keys(ports.Keys);
    SortedIsListing(ports.Keys, keys);
    outputs := NameOutputs(ports, SortNames(keys));
  }

  method NameOutputs(ports: map<string, string>, keys: seq<string>) returns (outputs: seq<NamedArtifact>)
    requires forall i :: 0 <= i < |keys| ==> keys[i] in ports
    ensures outputs == NamedIn(ports, keys)
  {
    outputs := [];
    for i := 0 to |keys|
      invariant outputs == NamedIn(ports, keys)[..i]
    {
      outputs := outputs + [NamedArtifact(keys[i], Some(ports[keys[i]]))];
    }
  }

  /** Committing a record supplies the record's artifact on each of its ports. */
  lemma RecordSupplies(ports: map<string, string>, port: string)
    ensures var outputs := RecordOutputs(ports);
      && ArtifactNamed(outputs, port) == (if port in ports then Some(ports[port]) else None)
      && (FirstNamed(outputs, port).Some? <==> port in ports)
      && forall i, j :: 0 <= i < j < |outputs| ==> outputs[i].name != outputs[j].name
  {
    var keys, outputs := Listing(ports.Keys), RecordOutputs(ports);
    if port in ports {
      assert port in multiset(keys);
      var i :| 0 <= i < |keys| && keys[i] == port;
      assert outputs[i].name == port;
    }
    forall i, j | 0 <= i < j < |outputs|
      ensures outputs[i].name != outputs[j].name
    {
      ListingDistinct(ports.Keys);
    }
  }

  // ---------------------------------------------------------------- hits and misses

  /** What a hit commits for outputs that were recorded. */
  ghost function HitOutputs(outputs: seq<NamedArtifact>): seq<NamedArtifact> {
    RecordOutputs(PortMap(outputs))
  }

  ghost predicate FirstIsLast(outputs: seq<NamedArtifact>) {
    forall port :: FirstNamed(outputs, port) == LastNamed(outputs, port)
  }

  lemma HitPort(outputs: seq<NamedArtifact>, port: string)
    requires Filled(outputs)
    ensures ArtifactNamed(HitOutputs(outputs), port)
         == if LastNamed(outputs, port).Some? then LastNamed(outputs, port).value.artifact else None
  {
    PortMapIsLast(outputs, port);
    RecordSupplies(PortMap(outputs), port);
  }

  lemma {:induction false} FirstIffLast(items: seq<NamedArtifact>, port: string)
    ensures FirstNamed(items, port).Some? <==> LastNamed(items, port).Some?
    ensures LastNamed(items, port).Some? ==>
      LastNamed(items, port).value in items && LastNamed(items, port).value.name == port
  {
    if items != [] {
      var front, last := items[..|items| - 1], items[|items| - 1];
      FirstIffLast(front, port);
      assert items == front + [last];
      NamedAppended(front, last, port);
    }
  }

  /** A hit supplies on every port what the execution supplied, if and only if
    * the execution's first output of each name is also its last. */
  lemma HitIsTransparent(outputs: seq<NamedArtifact>)
    requires Filled(outputs)
    ensures SamePorts(HitOutputs(outputs), outputs) <==> FirstIsLast(outputs)
  {
    forall port
      ensures ArtifactNamed(HitOutputs(outputs), port) == ArtifactNamed(outputs, port)
         <==> FirstNamed(outputs, port) == LastNamed(outputs, port)
    {
      HitPort(outputs, port);
      FirstIffLast(outputs, port);
    }
  }

  lemma DistinctFirstIsLast(outputs: seq<NamedArtifact>)
    requires forall i, j :: 0 <= i < j < |outputs| ==> outputs[i].name != outputs[j].name
    ensures FirstIsLast(outputs)
  {
    forall port
      ensures FirstNamed(outputs, port) == LastNamed(outputs, port)
    {
      OneEachFirstIsLast(outputs, port);
    }
  }

  /** Two different outputs on one port: the execution supplies the first, a hit
    * the second. */
  lemma RepeatedOutputNotTransparent(a: string, b: string)
    requires a != "" && b != "" && a != b
    ensures var outputs := [NamedArtifact("out", Some(a)), NamedArtifact("out", Some(b))];
      ArtifactNamed(outputs, "out") == Some(a) && ArtifactNamed(HitOutputs(outputs), "out") == Some(b)
  {
    var outputs := [NamedArtifact("out", Some(a)), NamedArtifact("out", Some(b))];
    HitPort(outputs, "out");
  }

  lemma {:induction false} CountZero(items: seq<NamedArtifact>, port: string)
    ensures CountNamed(items, port) == 0 <==> FirstNamed(items, port).None?
  {
    if items != [] {
      CountZero(items[1..], port);
    }
  }

  lemma {:induction false} CountAtMostOne(items: seq<NamedArtifact>, port: string)
    requires forall i, j :: 0 <= i < j < |items| ==> items[i].name != items[j].name
    ensures CountNamed(items, port) <= 1
  {
    if items != [] {
      CountAtMostOne(items[1..], port);
      CountZero(items[1..], port);
    }
  }

  lemma HitCounts(outputs: seq<NamedArtifact>, port: string)
    requires Filled(outputs)
    ensures CountNamed(HitOutputs(outputs), port) <= 1
    ensures CountNamed(HitOutputs(outputs), port) == 0 <==> CountNamed(outputs, port) == 0
  {
    var hit := HitOutputs(outputs);
    RecordSupplies(PortMap(outputs), port);
    CountAtMostOne(hit, port);
    CountZero(hit, port);
    CountZero(outputs, port);
    PortMapIsLast(outputs, port);
    FirstIffLast(outputs, port);
  }

  /** A hit never fails the output validation that the execution passed. */
  lemma HitPassesValidation(traits: map<string, set<string>>, cap: Capability, outputs: seq<NamedArtifact>)
    requires Filled(outputs) && ArityFits(cap.outputs, outputs) && OutputFault(traits, cap, outputs).None?
    ensures ArityFits(cap.outputs, HitOutputs(outputs)) && OutputFault(traits, cap, HitOutputs(outputs)).None?
  {
    var hit := HitOutputs(outputs);
    forall i | 0 <= i < |cap.outputs|
      ensures var n := CountNamed(hit, cap.outputs[i].name);
        (n == 0 ==> cap.outputs[i].optional) && (n > 1 ==> cap.outputs[i].multiple)
    {
      HitCounts(outputs, cap.outputs[i].name);
    }
    forall i | 0 <= i < |hit|
      ensures FitsPort(traits, cap.outputs, hit[i])
    {
      var port := Listing(PortMap(outputs).Keys)[i];
      PortMapIsLast(outputs, port);
      FirstIffLast(outputs, port);
      assert hit[i] in outputs;
      var j :| 0 <= j < |outputs| && outputs[j] == hit[i];
      assert FitsPort(traits, cap.outputs, outputs[j]);
    }
  }
}
