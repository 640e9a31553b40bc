/** Registration and validation of a bounded command runtime. */
module CommandRuntimeBuilder {
  import opened Wrappers
  import opened ByteStrings
  import Text

  datatype RuntimeBuildError =
    | EmptyCapability
    | EmptyCommand
    | ReservedCommand(name: string)
    | DuplicateCommand(name: string)

  /** What a built runtime enforces. The names are the keys of ordered trees, in order. */
  datatype CommandRuntime = CommandRuntime(
    commandNames: seq<string>, capabilityNames: seq<string>,
    maxConcurrency: nat, maxInputBytes: nat, maxOutputBytes: nat,
    defaultTimeoutMs: nat, maxTimeoutMs: nat, resultGraceMs: nat)

  predicate Reserved(command: string) {
    command == "system" || Text.IsPrefix("system.", command)
  }

  predicate Ascending(names: seq<string>) {
    forall i, j :: 0 <= i < j < |names| ==> Text.Less(names[i], names[j])
  }

  /** Insertion into an ordered set. */
  function TreeInsert(name: string, tree: seq<string>): seq<string> {
    if name in tree then tree else Text.Insert(name, tree)
  }

  function CapabilityTree(names: seq<string>): Result<seq<string>, RuntimeBuildError> {
    if names == [] then Ok([])
    else
      var last := |names| - 1;
      match CapabilityTree(names[..last])
      case Err(e) => Err(e)
      case Ok(tree) =>
        if Text.Trim(names[last]) == "" then Err(EmptyCapability)
        else Ok(TreeInsert(Text.Trim(names[last]), tree))
  }

  function CommandTree(names: seq<string>): Result<seq<string>, RuntimeBuildError> {
    if names == [] then Ok([])
    else
      var last := |names| - 1;
      match CommandTree(names[..last])
      case Err(e) => Err(e)
      case Ok(tree) =>
        var name := Text.Trim(names[last]);
        if name == "" then Err(EmptyCommand)
        else if Reserved(name) then Err(ReservedCommand(name))
        else if name in tree then Err(DuplicateCommand(name))
        else Ok(TreeInsert(name, tree))
  }

  /** A name above every key is inserted last. */
  lemma {:induction false} InsertAtEnd(name: string, tree: seq<string>)
    requires forall other :: other in tree ==> Text.Less(other, name)
    ensures Text.Insert(name, tree) == tree + [name]
  {
    if tree != [] {
      Text.LessIsTotal(tree[0], name);
      InsertAtEnd(name, tree[1..]);
    }
  }

  predicate TrimStable(name: string) {
    name != "" && Text.Trim(name) == name
  }

  /** Names the runtime registers as they stand. */
  predicate Registrable(name: string) {
    TrimStable(name) && !Reserved(name)
  }

  /** Registering ascending acceptable names yields exactly those names. */
  lemma {:induction false} AscendingCommandsBuild(names: seq<string>)
    requires Ascending(names) && forall n :: n in names ==> Registrable(n)
    ensures CommandTree(names) == Ok(names)
  {
    if names != [] {
      var last := |names| - 1;
      AscendingCommandsBuild(names[..last]);
      forall other | other in names[..last] ensures Text.Less(other, names[last]) {}
      Text.LessIsTotal(names[last], names[last]);
      InsertAtEnd(names[last], names[..last]);
      assert names[last] in names;
      assert names == names[..last] + [names[last]];
    }
  }

  lemma {:induction false} AscendingCapabilitiesBuild(names: seq<string>)
    requires Ascending(names) && forall n :: n in names ==> TrimStable(n)
    ensures CapabilityTree(names) == Ok(names)
  {
    if names != [] {
      var last := |names| - 1;
      AscendingCapabilitiesBuild(names[..last]);
      forall other | other in names[..last] ensures Text.Less(other, names[last]) {}
      Text.LessIsTotal(names[last], names[last]);
      InsertAtEnd(names[last], names[..last]);
      assert names[last] in names;
      assert names == names[..last] + [names[last]];
    }
  }

  function TrimAll(names: seq<string>): (trimmed: seq<string>)
    ensures |trimmed| == |names|
  {
    seq(|names|, i requires 0 <= i < |names| => Text.Trim(names[i]))
  }

  predicate Distinct(names: seq<string>) {
    forall i, j :: 0 <= i < j < |names| ==> names[i] != names[j]
  }

  predicate Acceptable(name: string) {
    name != "" && !Reserved(name)
  }

  lemma DistinctSnoc(names: seq<string>, name: string)
    ensures Distinct(names + [name]) <==> Distinct(names) && name !in names
  {
    var all := names + [name];
    assert forall i :: 0 <= i < |names| ==> all[i] == names[i];
    if name in names {
      var i :| 0 <= i < |names| && names[i] == name;
      assert i < |names| < |all| && all[i] == all[|names|];
    }
  }

  lemma SortSnoc(names: seq<string>, name: string)
    ensures Text.Sort(names + [name]) == Text.Insert(name, Text.Sort(names))
  {
    var all := names + [name];
    Text.SortSorts(names);
    Text.SortSorts(all);
    Text.InsertSorts(name, Text.Sort(names));
    Text.SortedIsUnique(Text.Insert(name, Text.Sort(names)), Text.Sort(all));
  }

  lemma SortKeepsMembers(names: seq<string>, name: string)
    ensures name in Text.Sort(names) <==> name in names
  {
    Text.SortSorts(names);
    assert name in Text.Sort(names) <==> name in multiset(Text.Sort(names));
  }

  /** Commands build exactly when no trimmed name is empty, reserved or repeated,
      and then the keys are the trimmed names in ascending order. */
  lemma {:induction false} CommandsBuildExactlyWhen(names: seq<string>)
    ensures CommandTree(names).Ok? <==>
              Distinct(TrimAll(names)) && forall n :: n in TrimAll(names) ==> Acceptable(n)
    ensures CommandTree(names).Ok? ==> CommandTree(names).value == Text.Sort(TrimAll(names))
  {
    if names != [] {
      var last := |names| - 1;
      var before, name := TrimAll(names[..last]), Text.Trim(names[last]);
      CommandsBuildExactlyWhen(names[..last]);
      assert TrimAll(names) == before + [name];
      assert forall n :: n in before + [name] <==> n in before || n == name;
      SortKeepsMembers(before, name);
      DistinctSnoc(before, name);
      SortSnoc(before, name);
    }
  }

  class CommandRuntimeBuilder {
    var registrations: seq<string>
    var capabilities: seq<string>
    var maxConcurrency: nat
    var maxInputBytes: nat
    var maxOutputBytes: nat
    var defaultTimeoutMs: nat
    var maxTimeoutMs: nat
    var resultGraceMs: nat

    constructor (maxConcurrency: nat, maxInputBytes: nat, maxOutputBytes: nat, defaultTimeoutMs: nat,
                 maxTimeoutMs: nat, resultGraceMs: nat)
      ensures registrations == [] && capabilities == []
      ensures this.maxConcurrency == Max(maxConcurrency, 1)
      ensures this.maxInputBytes == Max(maxInputBytes, 1) && this.maxOutputBytes == Max(maxOutputBytes, 1)
      ensures this.defaultTimeoutMs == Max(defaultTimeoutMs, 1) && this.maxTimeoutMs == Max(maxTimeoutMs, 1)
      ensures this.resultGraceMs == resultGraceMs
    {
      registrations, capabilities := [], [];
      this.maxConcurrency := Max(maxConcurrency, 1);
      this.maxInputBytes, this.maxOutputBytes := Max(maxInputBytes, 1), Max(maxOutputBytes, 1);
      this.defaultTimeoutMs, this.maxTimeoutMs := Max(defaultTimeoutMs, 1), Max(maxTimeoutMs, 1);
      this.resultGraceMs := resultGraceMs;
    }

    method Capability(name: string)
      modifies this`capabilities
      ensures capabilities == old(capabilities) + [name]
    {
      capabilities := capabilities + [name];
    }

    method Command(name: string)
      modifies this`registrations
      ensures registrations == old(registrations) + [name]
    {
      registrations := registrations + [name];
    }

    /** Both name trees, or the first objection to a name, capabilities before commands. */
    method Build() returns (r: Result<CommandRuntime, RuntimeBuildError>)
      ensures match CapabilityTree(capabilities)
        case Err(e) => r == Err(e)
        case Ok(capabilityNames) =>
          match CommandTree(registrations)
          case Err(e) => r == Err(e)
          case Ok(commandNames) =>
            r == Ok(CommandRuntime(commandNames, capabilityNames, Max(maxConcurrency, 1),
                                   Max(maxInputBytes, 1), Max(maxOutputBytes, 1),
                                   Min(Max(defaultTimeoutMs, 1), Max(maxTimeoutMs, 1)),
                                   Max(maxTimeoutMs, 1), resultGraceMs))
    {
      var declared: seq<string> := [];
      var i := 0;
      while i < |capabilities|
        invariant i <= |capabilities|
        invariant CapabilityTree(capabilities[..i]) == Ok(declared)
      {
        OneMoreCapability(capabilities, i);
        var capability := Text.Trim(capabilities[i]);
        if capability == "" {
          CapabilityErrorsPersist(capabilities, i + 1);
          return Err(EmptyCapability);
        }
        declared := TreeInsert(capability, declared);
        i := i + 1;
      }
      assert capabilities[..i] == capabilities;

      var handlers: seq<string> := [];
      i := 0;
      while i < |registrations|
        invariant i <= |registrations|
        invariant CommandTree(registrations[..i]) == Ok(handlers)
      {
        assert registrations[..i + 1][..i] == registrations[..i];
        CommandErrorsPersist(registrations, i + 1);
        var command := Text.Trim(registrations[i]);
        if command == "" { return Err(EmptyCommand); }
        if Reserved(command) { return Err(ReservedCommand(command)); }
        var taken := command in handlers;
        handlers := TreeInsert(command, handlers);
        if taken { return Err(DuplicateCommand(command)); }
        i := i + 1;
      }
      assert registrations[..i] == registrations;
      r := Ok(CommandRuntime(handlers, declared, Max(maxConcurrency, 1), Max(maxInputBytes, 1),
                             Max(maxOutputBytes, 1), Min(Max(defaultTimeoutMs, 1), Max(maxTimeoutMs, 1)),
                             Max(maxTimeoutMs, 1), resultGraceMs));
    }
  }

  lemma OneMoreCapability(names: seq<string>, i: nat)
    requires i < |names| && CapabilityTree(names[..i]).Ok?
    ensures var capability := Text.Trim(names[i]);
            CapabilityTree(names[..i + 1])
            == if capability == "" then Err(EmptyCapability)
               else Ok(TreeInsert(capability, CapabilityTree(names[..i]).value))
  {
    assert names[..i + 1][..i] == names[..i];
  }

  lemma {:induction false} CapabilityErrorsPersist(names: seq<string>, i: nat)
    requires i <= |names|
    ensures CapabilityTree(names[..i]).Err? ==> CapabilityTree(names) == CapabilityTree(names[..i])
  {
    if i < |names| {
      assert names[..|names| - 1][..i] == names[..i];
      CapabilityErrorsPersist(names[..|names| - 1], i);
    } else {
      assert names[..i] == names;
    }
  }

  lemma {:induction false} CommandErrorsPersist(names: seq<string>, i: nat)
    requires i <= |names|
    ensures CommandTree(names[..i]).Err? ==> CommandTree(names) == CommandTree(names[..i])
  {
    if i < |names| {
      assert names[..|names| - 1][..i] == names[..i];
      CommandErrorsPersist(names[..|names| - 1], i);
    } else {
      assert names[..i] == names;
    }
  }
}
