/** Injecting a run input: when it is accepted, and what it changes. */
module Injections {
  import opened Base
  import opened Types
  import opened Scheduler
  import opened Moves
  import opened Kernel

  predicate FirstAt(inputs: seq<NamedArtifact>, name: string, i: int) {
    0 <= i < |inputs| && inputs[i].name == name && forall j :: 0 <= j < i ==> inputs[j].name != name
  }

  /** The input takes the place of the first of its name, or comes last if it is new. */
  ghost predicate SetIn(inputs: seq<NamedArtifact>, input: NamedArtifact, inputs': seq<NamedArtifact>) {
    && (forall i :: FirstAt(inputs, input.name, i) ==> inputs' == inputs[i := input])
    && ((forall i :: !FirstAt(inputs, input.name, i)) ==> inputs' == inputs + [input])
  }

  lemma {:induction false} ReplaceAt(inputs: seq<NamedArtifact>, input: NamedArtifact, i: nat)
    requires i < |inputs| && inputs[i].name == input.name && forall j :: 0 <= j < i ==> inputs[j].name != input.name
    ensures Replace(inputs, input) == inputs[i := input]
  {
    if i > 0 {
      var rest := inputs[1..];
      assert inputs[0].name != input.name && forall j :: 0 <= j < i - 1 ==> rest[j] == inputs[j + 1];
      ReplaceAt(rest, input, i - 1);
      assert [inputs[0]] + rest[i - 1 := input] == inputs[i := input];
    } else {
      assert [input] + inputs[1..] == inputs[0 := input];
    }
  }

  lemma {:induction false} ReplaceNew(inputs: seq<NamedArtifact>, input: NamedArtifact)
    requires forall i :: 0 <= i < |inputs| ==> inputs[i].name != input.name
    ensures Replace(inputs, input) == inputs + [input]
  {
    if inputs != [] {
      ReplaceNew(inputs[1..], input);
      assert [inputs[0]] + (inputs[1..] + [input]) == inputs + [input];
    }
  }

  lemma {:induction false} FirstPlace(inputs: seq<NamedArtifact>, name: string) returns (i: nat)
    requires exists k :: 0 <= k < |inputs| && inputs[k].name == name
    ensures i < |inputs| && inputs[i].name == name && forall j :: 0 <= j < i ==> inputs[j].name != name
  {
    i := 0;
    while inputs[i].name != name
      invariant i < |inputs| && forall j :: 0 <= j < i ==> inputs[j].name != name
      decreases |inputs| - i
    {
      i := i + 1;
    }
  }

  lemma ReplaceSets(inputs: seq<NamedArtifact>, input: NamedArtifact)
    ensures SetIn(inputs, input, Replace(inputs, input))
  {
    if exists k :: 0 <= k < |inputs| && inputs[k].name == input.name {
      var i := FirstPlace(inputs, input.name);
      assert FirstAt(inputs, input.name, i);
      forall k | FirstAt(inputs, input.name, k)
        ensures Replace(inputs, input) == inputs[k := input]
      {
        ReplaceAt(inputs, input, k);
      }
    } else {
      ReplaceNew(inputs, input);
    }
  }

  /** Why an injection is refused, and that it is otherwise accepted: INVALID for an input
    * without name or artifact, or that no binding reads; NOT_FOUND for an artifact or run
    * that is not there; RUN_CLOSED for a run that is not running. */
  lemma InjectRefusedFor(state: State, r: string, input: NamedArtifact)
    ensures var refused := InjectInput(state, r, input).1;
      var named := input.name != "" && input.artifact.Some?;
      var known := named && input.artifact.value in state.artifacts && r in state.runs;
      var open := known && state.runs[r].run.state == Running;
      var read := open && exists i :: 0 <= i < |state.runs[r].run.assembly.bindings|
                                      && state.runs[r].run.assembly.bindings[i].input == input.name;
      && (refused.None? <==> read)
      && (refused == Some(Invalid) <==> !named || (open && !read))
      && (refused == Some(NotFound) <==> named && !known)
      && (refused.Some? ==> InjectInput(state, r, input).0 == state)
  {
  }

  /** What an accepted injection changes: the input, and its generation, which stops at
    * the largest 64-bit number; and nothing else of the kernel but one entry. */
  lemma InjectionSets(state: State, r: string, input: NamedArtifact)
    requires InjectInput(state, r, input).1.None?
    ensures var state' := InjectInput(state, r, input).0;
      && r in state.runs && r in state'.runs
      && var slot, slot' := state.runs[r], state'.runs[r];
      var count := if input.name in slot.inputEpochs then slot.inputEpochs[input.name] else 0;
      && SetIn(slot.run.inputs, input, slot'.run.inputs)
      && slot'.inputEpochs
         == slot.inputEpochs[input.name := if count < 0xFFFF_FFFF_FFFF_FFFF then count + 1 else count]
      && slot' == slot.(run := slot.run.(inputs := slot'.run.inputs), inputEpochs := slot'.inputEpochs)
      && state' == state.(runs := state.runs[r := slot'], ledger := state.ledger + [InputInjected(r, input)])
  {
    ReplaceSets(state.runs[r].run.inputs, input);
    hide Replace, SetIn, IsBoundInput;
  }
}
