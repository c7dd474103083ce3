/** The converter as backend/main.py writes it: the class
    `SimpleLadderConverter`, whose methods update `device_counters` and
    `variable_map` in place and build their results in loops, and
    `convert_code`, which runs one conversion and sorts the variable map into
    the device map by address prefix.

    Each method is proved to compute what the functions of module `Converter`
    say, so the properties proved there hold of the class as well. */
module ConverterImpl {
  import opened Wrappers
  import opened PyStr
  import opened Ladder
  import opened Converter
  import DownloadPanel

  // ------------------------------------------------------------ device map

  /** A section of the device map, `{ address: name }`, as its entries in
      insertion order. */
  type Entries = seq<(string, string)>

  /** No entry has key `key`. */
  predicate KeyAbsent(es: Entries, key: string) {
    forall i :: 0 <= i < |es| ==> es[i].0 != key
  }

  /** `section[key] = value`: a key already present keeps its place and
      takes the new value; a new key goes at the end. */
  function Put(es: Entries, key: string, value: string): (r: Entries)
    ensures (key, value) in r
    ensures forall i :: 0 <= i < |es| && es[i].0 != key ==> es[i] in r
    ensures forall e :: e in r ==> e == (key, value) || e in es
    ensures KeyAbsent(es, key) ==> r == es + [(key, value)]
    ensures !KeyAbsent(es, key) ==> |r| == |es|
  {
    if es == [] then [(key, value)]
    else if es[0].0 == key then [(key, value)] + es[1..]
    else
      var rest := Put(es[1..], key, value);
      assert forall i :: 1 <= i < |es| && es[i].0 != key ==> es[i] in rest by {
        forall i | 1 <= i < |es| && es[i].0 != key ensures es[i] in rest {
          assert es[1..][i - 1] == es[i];
        }
      }
      assert KeyAbsent(es, key) ==> KeyAbsent(es[1..], key) by {
        if KeyAbsent(es, key) {
          forall i | 0 <= i < |es[1..]| ensures es[1..][i].0 != key {
            assert es[1..][i] == es[i + 1];
          }
        }
      }
      assert !KeyAbsent(es, key) ==> !KeyAbsent(es[1..], key) by {
        if !KeyAbsent(es, key) {
          var i :| 0 <= i < |es| && es[i].0 == key;
          assert es[1..][i - 1] == es[i];
        }
      }
      [es[0]] + rest
  }

  /** The section the loop of `convert_code` builds for prefix `c` from the
      entries of `variable_map`, one `section[address] = name` per entry
      whose address starts with `c`. */
  function SectionOf(vars: seq<(string, Device)>, c: char): Entries {
    if vars == [] then []
    else
      var last := vars[|vars| - 1];
      var acc := SectionOf(vars[..|vars| - 1], c);
      if StartsWith(Address(last.1), [c]) then Put(acc, Address(last.1), last.0) else acc
  }

  /** The reference reading of a section: the entries of the map whose device
      has prefix `c`, as `(address, name)`, in map order. */
  function Filter(vars: seq<(string, Device)>, c: char): (r: Entries)
    ensures forall e :: e in r ==> exists k :: 0 <= k < |vars| && vars[k].1.prefix == c && e == (Address(vars[k].1), vars[k].0)
  {
    if vars == [] then []
    else
      var last := vars[|vars| - 1];
      var init := vars[..|vars| - 1];
      var acc := Filter(init, c);
      assert forall e :: e in acc ==> exists k :: 0 <= k < |vars| && vars[k].1.prefix == c && e == (Address(vars[k].1), vars[k].0) by {
        forall e | e in acc ensures exists k :: 0 <= k < |vars| && vars[k].1.prefix == c && e == (Address(vars[k].1), vars[k].0) {
          var k :| 0 <= k < |init| && init[k].1.prefix == c && e == (Address(init[k].1), init[k].0);
          assert vars[k] == init[k];
        }
      }
      if last.1.prefix == c then acc + [(Address(last.1), last.0)] else acc
  }

  /** No device is given to two names. */
  predicate DistinctDevices(vars: seq<(string, Device)>) {
    forall k, l :: 0 <= k < l < |vars| ==> vars[k].1 != vars[l].1
  }

  /** An address starts with the character `c` exactly when its device has
      prefix `c`. */
  lemma AddressStarts(d: Device, c: char)
    ensures StartsWith(Address(d), [c]) <==> d.prefix == c
  {
    assert Address(d)[..1] == [d.prefix];
  }

  /** One more entry of the map adds to the section its address prefix names
      and leaves the others alone. */
  lemma SectionOfSnoc(vars: seq<(string, Device)>, k: nat, c: char)
    requires k < |vars|
    ensures SectionOf(vars[..k + 1], c)
         == if vars[k].1.prefix == c then Put(SectionOf(vars[..k], c), Address(vars[k].1), vars[k].0)
            else SectionOf(vars[..k], c)
    ensures StartsWith(Address(vars[k].1), [c]) <==> vars[k].1.prefix == c
  {
    assert vars[..k + 1][..k] == vars[..k];
    AddressStarts(vars[k].1, c);
  }

  /** With no device given twice, every address is new to its section, so
      the dictionary assignments only append: the section is the filtered
      map. */
  lemma {:induction false} SectionIsFilter(vars: seq<(string, Device)>, c: char)
    requires DistinctDevices(vars)
    ensures SectionOf(vars, c) == Filter(vars, c)
  {
    if vars != [] {
      var last := vars[|vars| - 1];
      var init := vars[..|vars| - 1];
      assert DistinctDevices(init) by {
        forall k, l | 0 <= k < l < |init| ensures init[k].1 != init[l].1 {
          assert init[k] == vars[k] && init[l] == vars[l];
        }
      }
      SectionIsFilter(init, c);
      AddressStarts(last.1, c);
      if last.1.prefix == c {
        var acc := Filter(init, c);
        forall i | 0 <= i < |acc| ensures acc[i].0 != Address(last.1) {
          assert acc[i] in acc;
          var k :| 0 <= k < |init| && init[k].1.prefix == c && acc[i] == (Address(init[k].1), init[k].0);
          assert vars[k] == init[k];
          AddressInjective(init[k].1, last.1);
        }
      }
    }
  }

  /** An entry of the map is in the filtered section for `c` exactly when its
      device has prefix `c`. */
  lemma {:induction false} FilterHolds(vars: seq<(string, Device)>, c: char, k: nat)
    requires k < |vars|
    ensures (Address(vars[k].1), vars[k].0) in Filter(vars, c) <==> vars[k].1.prefix == c
  {
    var e := (Address(vars[k].1), vars[k].0);
    var init := vars[..|vars| - 1];
    if k < |vars| - 1 {
      FilterHolds(init, c, k);
      assert init[k] == vars[k];
    }
    if e in Filter(vars, c) {
      var j :| 0 <= j < |vars| && vars[j].1.prefix == c && e == (Address(vars[j].1), vars[j].0);
      AddressInjective(vars[j].1, vars[k].1);
    }
  }

  /** Every device of the map has prefix X, Y or M: the three filtered
      sections together hold as many entries as the map. */
  lemma {:induction false} FilterCount(vars: seq<(string, Device)>)
    requires forall k :: 0 <= k < |vars| ==> vars[k].1.prefix in ASSIGNED
    ensures |Filter(vars, 'X')| + |Filter(vars, 'Y')| + |Filter(vars, 'M')| == |vars|
  {
    if vars != [] {
      var init := vars[..|vars| - 1];
      assert forall k :: 0 <= k < |init| ==> init[k].1.prefix in ASSIGNED by {
        forall k | 0 <= k < |init| ensures init[k].1.prefix in ASSIGNED {
          assert init[k] == vars[k];
        }
      }
      FilterCount(init);
      assert vars[|vars| - 1].1.prefix in ASSIGNED;
    }
  }

  /** The device map `convert_code` returns for a conversion that left the
      map `vars`: inputs, outputs and internal relays from the map, and the
      timer and counter sections empty. */
  function DeviceMapOf(vars: seq<(string, Device)>): DownloadPanel.DeviceMap {
    DownloadPanel.DeviceMap(Some(SectionOf(vars, 'X')), Some(SectionOf(vars, 'Y')),
      Some(SectionOf(vars, 'M')), Some([]), Some([]))
  }

  /** For a consistent map, every entry lands in exactly one of inputs,
      outputs and internals, the one its address prefix names; the three
      sections hold nothing else, so together they are as long as the map. */
  lemma DeviceMapSplit(st: State, k: nat)
    requires Consistent(st) && k < |st.vars|
    ensures var e := (Address(st.vars[k].1), st.vars[k].0);
      && (e in SectionOf(st.vars, 'X') <==> st.vars[k].1.prefix == 'X')
      && (e in SectionOf(st.vars, 'Y') <==> st.vars[k].1.prefix == 'Y')
      && (e in SectionOf(st.vars, 'M') <==> st.vars[k].1.prefix == 'M')
      && st.vars[k].1.prefix in ASSIGNED
    ensures |SectionOf(st.vars, 'X')| + |SectionOf(st.vars, 'Y')| + |SectionOf(st.vars, 'M')| == |st.vars|
  {
    assert DistinctDevices(st.vars);
    SectionIsFilter(st.vars, 'X');
    SectionIsFilter(st.vars, 'Y');
    SectionIsFilter(st.vars, 'M');
    FilterHolds(st.vars, 'X', k);
    FilterHolds(st.vars, 'Y', k);
    FilterHolds(st.vars, 'M', k);
    assert Allocated(st, st.vars[k].1);
    assert forall j :: 0 <= j < |st.vars| ==> st.vars[j].1.prefix in ASSIGNED by {
      forall j | 0 <= j < |st.vars| ensures st.vars[j].1.prefix in ASSIGNED {
        assert Allocated(st, st.vars[j].1);
      }
    }
    FilterCount(st.vars);
  }

  /** Every entry of section `c` has an address starting with `c`. */
  lemma SectionPrefix(st: State, c: char)
    requires Consistent(st)
    ensures forall e :: e in SectionOf(st.vars, c) ==> |e.0| >= 1 && e.0[0] == c
  {
    SectionIsFilter(st.vars, c);
  }

  lemma AppendAssoc<T>(a: seq<T>, b: seq<T>, c: seq<T>)
    ensures (a + b) + c == a + (b + c)
  {
  }

  /** What one pass of the scan loop does to `block + ScanThen(rest, found)`. */
  lemma ScanLineStep(rest: seq<string>, thenBlock: seq<string>, foundIfLine: bool,
                     block: seq<string>, found: bool, stop: bool)
    requires rest != []
    requires var s := Strip(rest[0]);
        if !foundIfLine then
          !stop
          && (if StartsWith(s, "IF") then block == thenBlock + IfLineAssignments(s) && found
              else block == thenBlock && !found)
        else if EndsBlock(s) then stop && block == thenBlock
        else !stop && found && block == thenBlock + BodyLineAssignments(s)
    ensures stop ==> thenBlock + ScanThen(rest, foundIfLine) == thenBlock
    ensures !stop ==> thenBlock + ScanThen(rest, foundIfLine) == block + ScanThen(rest[1..], found)
  {
    ScanThenStep(rest, foundIfLine);
    var s := Strip(rest[0]);
    if !foundIfLine && StartsWith(s, "IF") {
      AppendAssoc(thenBlock, IfLineAssignments(s), ScanThen(rest[1..], true));
    } else if foundIfLine && !EndsBlock(s) {
      AppendAssoc(thenBlock, BodyLineAssignments(s), ScanThen(rest[1..], true));
    }
  }

  // ----------------------------------------------------------------- class

  class SimpleLadderConverter {
    /** `device_counters`: the next number of each prefix. */
    var deviceCounters: map<char, nat>
    /** `variable_map`: the address of each variable, in insertion order. */
    var variableMap: seq<(string, Device)>

    /** The converter's state as a value. */
    function Snapshot(): State
      reads this
    {
      State(deviceCounters, variableMap)
    }

    ghost predicate Valid()
      reads this
    {
      Consistent(Snapshot())
    }

    /** `__init__`: six counters at zero and an empty map. */
    constructor()
      ensures Snapshot() == Initial() && Valid()
    {
      deviceCounters := map c | c in COUNTER_KEYS :: 0;
      variableMap := [];
    }

    /** The address of `name`: the one in `variable_map`, or else
        `f'{prefix}{counter}'`, recorded in the map with that counter
        incremented. */
    method AddressOf(name: string, prefix: char) returns (d: Device)
      requires HasCounters(Snapshot()) && prefix in ASSIGNED
      modifies this
      ensures (d, Snapshot()) == Assign(old(Snapshot()), name, prefix)
    {
      var found := Lookup(variableMap, name);
      if found.Some? {
        d := found.value;
      } else {
        d := Device(prefix, deviceCounters[prefix]);
        variableMap := variableMap + [(name, d)];
        deviceCounters := deviceCounters[prefix := deviceCounters[prefix] + 1];
      }
    }

    /** `_parse_variable_declaration(line)`. */
    method ParseVariableDeclaration(line: string, declMatch: Matcher)
      requires Valid()
      modifies this
      ensures Snapshot() == Declaration(old(Snapshot()), line, declMatch)
      ensures Valid()
    {
      DeclarationKeeps(Snapshot(), line, declMatch);
      if Contains(line, "BOOL") {
        var found := declMatch(line);
        if found.Some? {
          var varName := found.value;
          if Lookup(variableMap, varName).None? {
            var _ := AddressOf(varName, DeclarationPrefix(varName));
          }
        }
      }
    }

    /** `_parse_condition_variables(condition)`: split on `AND`, strip the
        parts, and collect the names of each part in order. */
    static method ParseConditionVariables(condition: string) returns (variables: seq<string>)
      ensures variables == ConditionVariables(condition)
    {
      var andParts := StripAll(Split(condition, "AND"));
      variables := AddAllPartVariables(andParts);
    }

    /** The `and_parts` loop. */
    static method AddAllPartVariables(andParts: seq<string>) returns (variables: seq<string>)
      ensures variables == VariablesOf(andParts)
    {
      variables := [];
      for i := 0 to |andParts|
        invariant variables == VariablesOf(andParts[..i])
      {
        assert andParts[..i + 1][..i] == andParts[..i] && andParts[..i + 1][i] == andParts[i];
        assert VariablesOf(andParts[..i + 1]) == VariablesOf(andParts[..i]) + PartVariables(andParts[i]);
        variables := AddPartVariables(variables, andParts[i]);
      }
      assert andParts[..|andParts|] == andParts;
    }

    /** The body of the `and_parts` loop for one part: its `or_parts` when it
        holds ` OR `, else the part itself, each cleaned and kept when
        non-empty. */
    static method AddPartVariables(variables: seq<string>, part: string) returns (out: seq<string>)
      ensures out == variables + PartVariables(part)
    {
      if Contains(part, " OR ") {
        var orParts := StripAll(Split(part, "OR"));
        out := AddCleanedNames(variables, orParts);
      } else {
        out := variables;
        var v := CleanName(part);
        if v != "" {
          out := out + [v];
        }
      }
    }

    /** The `or_parts` loop: each part cleaned, and kept when non-empty. */
    static method AddCleanedNames(variables: seq<string>, orParts: seq<string>) returns (out: seq<string>)
      ensures out == variables + CleanedNames(orParts)
    {
      out := variables;
      for j := 0 to |orParts|
        invariant out == variables + CleanedNames(orParts[..j])
      {
        assert orParts[..j + 1][..j] == orParts[..j] && orParts[..j + 1][j] == orParts[j];
        var v := CleanName(orParts[j]);
        assert CleanedNames(orParts[..j + 1]) == CleanedNames(orParts[..j]) + Keep(v);
        AppendAssoc(variables, CleanedNames(orParts[..j]), Keep(v));
        if v != "" {
          out := out + [v];
        } else {
          assert Keep(v) == [];
        }
      }
      assert orParts[..|orParts|] == orParts;
    }

    /** The assignments among `parts`, each with trailing `;` stripped,
        appended to `block` in order. */
    static method AppendAssignments(block: seq<string>, parts: seq<string>) returns (out: seq<string>)
      ensures out == block + Collected(parts)
    {
      out := block;
      for j := 0 to |parts|
        invariant out == block + Collected(parts[..j])
      {
        assert parts[..j + 1][..j] == parts[..j];
        if Contains(parts[j], ":=") {
          out := out + [RStripChar(parts[j], ';')];
        }
      }
      assert parts[..|parts|] == parts;
    }

    /** The assignments on the IF line after `THEN`, appended to `block`. */
    static method AppendIfLineAssignments(block: seq<string>, strippedLine: string) returns (out: seq<string>)
      ensures out == block + IfLineAssignments(strippedLine)
    {
      out := block;
      if Contains(strippedLine, "THEN") {
        var afterThen := Strip(AfterFirst(strippedLine, "THEN"));
        if afterThen != "" && !StartsWith(afterThen, "END_IF") {
          out := AppendAssignments(block, Statements(afterThen));
        }
      }
    }

    /** The assignments of a line of the block, appended to `block`. */
    static method AppendBodyAssignments(block: seq<string>, strippedLine: string) returns (out: seq<string>)
      ensures out == block + BodyLineAssignments(strippedLine)
    {
      out := block;
      if strippedLine != "" && !StartsWith(strippedLine, "//") {
        if Contains(strippedLine, ":=") {
          out := AppendAssignments(block, Statements(strippedLine));
        }
      }
    }

    /** The scan for `then_block` over the whole program. */
    static method ScanThenBlock(lines: seq<string>) returns (thenBlock: seq<string>)
      ensures thenBlock == ThenBlock(lines)
    {
      thenBlock := [];
      var foundIfLine := false;
      var i := 0;
      assert lines[0..] == lines;
      while i < |lines|
        invariant 0 <= i <= |lines|
        invariant thenBlock + ScanThen(lines[i..], foundIfLine) == ScanThen(lines, false)
      {
        var stop;
        ghost var before, wasFound := thenBlock, foundIfLine;
        thenBlock, foundIfLine, stop := ScanLine(thenBlock, foundIfLine, lines[i]);
        ScanLineStep(lines[i..], before, wasFound, thenBlock, foundIfLine, stop);
        if stop {
          assert thenBlock == ScanThen(lines, false);
          return;
        }
        assert lines[i..][1..] == lines[i + 1..];
        i := i + 1;
      }
      assert lines[i..] == [];
    }

    /** One pass of the scan loop over `line`: whether the loop stops there,
        and the block and flag it leaves otherwise. */
    static method ScanLine(thenBlock: seq<string>, foundIfLine: bool, line: string)
      returns (block: seq<string>, found: bool, stop: bool)
      ensures var s := Strip(line);
        if !foundIfLine then
          !stop
          && (if StartsWith(s, "IF") then block == thenBlock + IfLineAssignments(s) && found
              else block == thenBlock && !found)
        else if EndsBlock(s) then stop && block == thenBlock
        else !stop && found && block == thenBlock + BodyLineAssignments(s)
    {
      block, found, stop := thenBlock, foundIfLine, false;
      var strippedLine := Strip(line);
      if !foundIfLine {
        if StartsWith(strippedLine, "IF") {
          block := AppendIfLineAssignments(thenBlock, strippedLine);
          found := true;
        }
      } else if EndsBlock(strippedLine) {
        stop := true;
      } else {
        block := AppendBodyAssignments(thenBlock, strippedLine);
      }
    }

    /** The contacts for the condition variables, each taking its address
        from the map or the next input. */
    method AddContacts(conditionVars: seq<string>) returns (elements: seq<Element>)
      requires HasCounters(Snapshot())
      modifies this
      ensures (elements, Snapshot()) == Contacts(old(Snapshot()), conditionVars, 0)
    {
      ghost var start := Snapshot();
      elements := [];
      for i := 0 to |conditionVars|
        invariant HasCounters(Snapshot())
        invariant elements + Contacts(Snapshot(), conditionVars, i).0 == Contacts(start, conditionVars, 0).0
        invariant Contacts(Snapshot(), conditionVars, i).1 == Contacts(start, conditionVars, 0).1
      {
        ContactsStep(Snapshot(), conditionVars, i);
        var contactAddr := AddressOf(conditionVars[i], 'X');
        var contact := ContactElement(contactAddr, conditionVars[i], i);
        AppendAssoc(elements, [contact], Contacts(Snapshot(), conditionVars, i + 1).0);
        elements := elements + [contact];
      }
      assert elements + [] == elements;
    }

    /** The rung of one THEN-block entry. */
    method AssignmentRungOf(assignment: string, conditionVars: seq<string>) returns (rung: Rung)
      requires HasCounters(Snapshot()) && Contains(assignment, ":=")
      modifies this
      ensures (rung, Snapshot()) == AssignmentRung(old(Snapshot()), ParseAssignment(assignment), conditionVars)
    {
      AssignmentHasColon(assignment);
      var varName := TargetName(assignment);
      var value := AssignedValue(assignment);
      var deviceAddr := AddressOf(varName, OutputPrefix(varName));
      var rungElements := AddContacts(conditionVars);
      rungElements := rungElements + [CoilElement(deviceAddr, varName, value, |conditionVars|)];
      rung := Rung(Some(rungElements));
    }

    /** `_parse_if_statement(if_line, lines)`. Every entry of the THEN block
        holds `:=`, so the guard of the rung loop always passes. */
    method ParseIfStatement(ifLine: string, lines: seq<string>, condMatch: Matcher) returns (rungs: seq<Rung>)
      requires Valid()
      modifies this
      ensures (rungs, Snapshot()) == IfStatement(old(Snapshot()), ifLine, lines, condMatch)
      ensures Valid()
    {
      IfStatementKeeps(Snapshot(), ifLine, lines, condMatch);
      var conditionMatch := condMatch(ifLine);
      if conditionMatch.None? {
        return [];
      }
      var condition := Strip(conditionMatch.value);
      var thenBlock := ScanThenBlock(lines);
      if thenBlock == [] {
        return [];
      }
      var conditionVars := ParseConditionVariables(condition);
      rungs := BuildRungs(thenBlock, conditionVars);
    }

    /** The rung loop of `_parse_if_statement`: one rung per entry. */
    method BuildRungs(thenBlock: seq<string>, conditionVars: seq<string>) returns (rungs: seq<Rung>)
      requires HasCounters(Snapshot())
      requires forall k :: 0 <= k < |thenBlock| ==> Contains(thenBlock[k], ":=")
      modifies this
      ensures (rungs, Snapshot()) == RungsFrom(old(Snapshot()), ParsedAssignments(thenBlock), conditionVars, 0)
    {
      ghost var start := Snapshot();
      ghost var asgs := ParsedAssignments(thenBlock);
      ParsedCount(thenBlock);
      rungs := [];
      for j := 0 to |thenBlock|
        invariant HasCounters(Snapshot())
        invariant rungs + RungsFrom(Snapshot(), asgs, conditionVars, j).0 == RungsFrom(start, asgs, conditionVars, 0).0
        invariant RungsFrom(Snapshot(), asgs, conditionVars, j).1 == RungsFrom(start, asgs, conditionVars, 0).1
      {
        ParsedAt(thenBlock, j);
        RungsFromStep(Snapshot(), asgs, conditionVars, j);
        var rung := AssignmentRungOf(thenBlock[j], conditionVars);
        AppendAssoc(rungs, [rung], RungsFrom(Snapshot(), asgs, conditionVars, j + 1).0);
        rungs := rungs + [rung];
      }
      assert rungs + [] == rungs;
    }

    /** `convert(source_code, plc_type)`: resets the counters and the map,
        then walks the stripped program line by line. The result depends on
        the source alone, never on an earlier conversion. */
    method Convert(sourceCode: string, plcType: string, generatedAt: string, declMatch: Matcher, condMatch: Matcher)
      returns (ladderData: LadderData, deviceMap: DownloadPanel.DeviceMap)
      requires Valid()
      modifies this
      ensures ladderData == LadderData(Conversion(sourceCode, declMatch, condMatch).0, plcType, generatedAt)
      ensures Snapshot() == Conversion(sourceCode, declMatch, condMatch).1
      ensures deviceMap == DownloadPanel.DeviceMap(Some([]), Some([]), Some([]), Some([]), Some([]))
      ensures Valid() && RungsListed(variableMap, ladderData.rungs)
    {
      deviceCounters := map c | c in deviceCounters :: 0;
      variableMap := [];
      assert Snapshot() == Initial();
      deviceMap := DownloadPanel.DeviceMap(Some([]), Some([]), Some([]), Some([]), Some([]));
      var lines := SourceLines(sourceCode);
      var rungs := ConvertLines(lines, declMatch, condMatch);
      ConversionKeeps(sourceCode, declMatch, condMatch);
      ladderData := LadderData(rungs, plcType, generatedAt);
    }

    /** The line loop of `convert` over `lines`, collecting every rung the
        IF statements produce. */
    method ConvertLines(lines: seq<string>, declMatch: Matcher, condMatch: Matcher) returns (rungs: seq<Rung>)
      requires Valid()
      modifies this
      ensures (rungs, Snapshot()) == ConvertFrom(old(Snapshot()), lines, 0, declMatch, condMatch)
      ensures Valid()
    {
      rungs := [];
      ghost var want := ConvertFrom(Snapshot(), lines, 0, declMatch, condMatch);
      for i := 0 to |lines|
        invariant Valid()
        invariant rungs + ConvertFrom(Snapshot(), lines, i, declMatch, condMatch).0 == want.0
        invariant ConvertFrom(Snapshot(), lines, i, declMatch, condMatch).1 == want.1
      {
        ghost var before := Snapshot();
        ConvertFromStep(before, lines, i, declMatch, condMatch);
        var lineRungs := ConvertOneLine(lines[i], lines, declMatch, condMatch);
        AppendAssoc(rungs, lineRungs, ConvertFrom(Snapshot(), lines, i + 1, declMatch, condMatch).0);
        rungs := rungs + lineRungs;
      }
      assert rungs + [] == rungs;
    }

    /** The body of `convert`'s loop for one line: skip it, parse it as a
        declaration, or parse it as an IF statement, by its stripped text. */
    method ConvertOneLine(rawLine: string, lines: seq<string>, declMatch: Matcher, condMatch: Matcher) returns (lineRungs: seq<Rung>)
      requires Valid()
      modifies this
      ensures (lineRungs, Snapshot()) == ConvertLine(old(Snapshot()), rawLine, lines, declMatch, condMatch)
      ensures Valid()
    {
      lineRungs := [];
      var line := Strip(rawLine);
      if Skipped(line) {
        return;
      }
      if DeclarationLine(line) {
        ParseVariableDeclaration(line, declMatch);
      } else if StartsWith(line, "IF") {
        lineRungs := ParseIfStatement(line, lines, condMatch);
      }
    }
  }

  /** Two conversions of the same program by one converter give the same
      diagram and leave the same map. */
  method ConvertTwice(sourceCode: string, declMatch: Matcher, condMatch: Matcher) returns (first: seq<Rung>, second: seq<Rung>)
    ensures first == second
  {
    var converter := new SimpleLadderConverter();
    var l1, _ := converter.Convert(sourceCode, "mitsubishi", "", declMatch, condMatch);
    var l2, _ := converter.Convert(sourceCode, "mitsubishi", "", declMatch, condMatch);
    first, second := l1.rungs, l2.rungs;
  }

  /** `convert_code(request)` for a request that does not fail: a fresh
      converter converts the source, then every entry of the variable map is
      written into inputs, outputs or internals by the first letter of its
      address. `generatedAt` stands for the clock. */
  method ConvertCode(sourceCode: string, plcType: string, generatedAt: string, declMatch: Matcher, condMatch: Matcher)
    returns (result: DownloadPanel.ConversionResult)
    ensures result.success
    ensures result.ladderData == Some(LadderData(Conversion(sourceCode, declMatch, condMatch).0, plcType, generatedAt))
    ensures result.deviceMap == Some(DeviceMapOf(Conversion(sourceCode, declMatch, condMatch).1.vars))
  {
    var converter := new SimpleLadderConverter();
    var ladderData, deviceMap := converter.Convert(sourceCode, plcType, generatedAt, declMatch, condMatch);
    var vars := converter.variableMap;
    var inputs, outputs, internals := deviceMap.inputs.value, deviceMap.outputs.value, deviceMap.internals.value;
    for k := 0 to |vars|
      invariant inputs == SectionOf(vars[..k], 'X')
      invariant outputs == SectionOf(vars[..k], 'Y')
      invariant internals == SectionOf(vars[..k], 'M')
    {
      var (varName, d) := vars[k];
      var deviceAddr := Address(d);
      SectionOfSnoc(vars, k, 'X');
      SectionOfSnoc(vars, k, 'Y');
      SectionOfSnoc(vars, k, 'M');
      if StartsWith(deviceAddr, "X") {
        inputs := Put(inputs, deviceAddr, varName);
      } else if StartsWith(deviceAddr, "Y") {
        outputs := Put(outputs, deviceAddr, varName);
      } else if StartsWith(deviceAddr, "M") {
        internals := Put(internals, deviceAddr, varName);
      }
    }
    assert vars[..|vars|] == vars;
    result := DownloadPanel.ConversionResult(true, Some(ladderData),
      Some(DownloadPanel.DeviceMap(Some(inputs), Some(outputs), Some(internals), deviceMap.timers, deviceMap.counters)));
  }
}
