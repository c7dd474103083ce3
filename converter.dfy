/** The conversion service's Structured Text to ladder converter
    (backend/main.py): `SimpleLadderConverter` with its device counters and
    its variable map, the line scan of `convert`, the BOOL declaration rule,
    the IF-statement rule that turns each assignment of a THEN block into a
    rung of contacts and one coil, the condition splitter, and the step of
    `convert_code` that sorts the variable map into the device map by address
    prefix.

    The functions below say what each step computes, as a function of the
    converter's state before it; the class at the end does the same work
    with loops and is proved against them. The two regular expressions of the
    source are parameters (`Matcher`), and so is the clock. */
module Converter {
  import opened Wrappers
  import opened PyStr
  import opened Ladder
  import DownloadPanel

  /** `re.search(pattern, line)` followed by `.group(1)`: the captured text,
      or `None` when the pattern does not match. The declaration rule uses
      `(\w+)\s*:\s*BOOL`, the IF rule `IF\s+(.+?)\s+THEN` (case-insensitive). */
  type Matcher = string -> Option<string>

  // ------------------------------------------------------------ addresses

  /** A device address such as `X0`, `Y3` or `M12`. */
  datatype Device = Device(prefix: char, index: nat)

  /** `f'{prefix}{counter}'`. */
  function Address(d: Device): (r: string)
    ensures |r| >= 2 && r[0] == d.prefix && r[1..] == Decimal(d.index)
  {
    [d.prefix] + Decimal(d.index)
  }

  /** Different devices are written differently. */
  lemma AddressInjective(d1: Device, d2: Device)
    ensures Address(d1) == Address(d2) ==> d1 == d2
  {
    if Address(d1) == Address(d2) {
      assert Address(d1)[1..] == Address(d2)[1..];
      DecimalInjective(d1.index, d2.index);
    }
  }

  /** The keys of `device_counters`. */
  const COUNTER_KEYS: set<char> := {'X', 'Y', 'M', 'D', 'T', 'C'}

  /** The prefixes the converter hands out: inputs, outputs, internal relays. */
  const ASSIGNED: set<char> := {'X', 'Y', 'M'}

  /** `var_name.startswith('Y') or 'Motor' in var_name or 'Lamp' in var_name
      or 'Valve' in var_name`: an output `Y`, otherwise an internal relay `M`.
      The rule for an assigned variable that has no address yet. */
  function OutputPrefix(name: string): (p: char)
    ensures p == 'Y' || p == 'M'
  {
    if StartsWith(name, "Y") || Contains(name, "Motor") || Contains(name, "Lamp") || Contains(name, "Valve") then 'Y'
    else 'M'
  }

  /** The rule for a declared BOOL variable: an input `X` when the name starts
      with `X` or mentions Input, Sensor or Button, otherwise the output rule. */
  function DeclarationPrefix(name: string): (p: char)
    ensures p in ASSIGNED
    ensures p == 'X' <==> StartsWith(name, "X") || Contains(name, "Input") || Contains(name, "Sensor") || Contains(name, "Button")
  {
    if StartsWith(name, "X") || Contains(name, "Input") || Contains(name, "Sensor") || Contains(name, "Button") then 'X'
    else OutputPrefix(name)
  }

  // ---------------------------------------------------------------- state

  /** The converter's state: `device_counters`, and `variable_map` as its
      entries in insertion order. */
  datatype State = State(counters: map<char, nat>, vars: seq<(string, Device)>)

  /** The six counters are there. */
  predicate HasCounters(st: State) {
    st.counters.Keys == COUNTER_KEYS
  }

  /** `__init__`, and the reset at the top of `convert`. */
  function Initial(): (st: State)
    ensures HasCounters(st) && st.vars == []
    ensures forall c :: c in st.counters ==> st.counters[c] == 0
  {
    State(map c | c in COUNTER_KEYS :: 0, [])
  }

  /** The variable names of the map, in order. */
  function Names(vars: seq<(string, Device)>): (r: seq<string>)
    ensures |r| == |vars| && forall k :: 0 <= k < |vars| ==> r[k] == vars[k].0
  {
    if vars == [] then [] else [vars[0].0] + Names(vars[1..])
  }

  /** `variable_map.get(name)`. */
  function Lookup(vars: seq<(string, Device)>, name: string): (r: Option<Device>)
    ensures r.Some? <==> name in Names(vars)
    ensures r.Some? ==> exists k :: 0 <= k < |vars| && vars[k] == (name, r.value)
  {
    if vars == [] then None
    else if vars[0].0 == name then Some(vars[0].1)
    else
      var r := Lookup(vars[1..], name);
      assert r.Some? ==> exists k :: 1 <= k < |vars| && vars[k] == (name, r.value) by {
        if r.Some? {
          var k :| 0 <= k < |vars[1..]| && vars[1..][k] == (name, r.value);
          assert vars[k + 1] == (name, r.value);
        }
      }
      r
  }

  /** A device the counters have already handed out. */
  predicate Allocated(st: State, d: Device) {
    d.prefix in ASSIGNED && d.prefix in st.counters && d.index < st.counters[d.prefix]
  }

  /** What the converter keeps true: the six counters; every mapped device
      has a prefix it hands out and a number below that prefix's counter; no
      name is mapped twice and no device is given to two names. */
  predicate Consistent(st: State) {
    HasCounters(st)
    && (forall k :: 0 <= k < |st.vars| ==> Allocated(st, st.vars[k].1))
    && (forall k, l :: 0 <= k < l < |st.vars| ==> st.vars[k].0 != st.vars[l].0 && st.vars[k].1 != st.vars[l].1)
  }

  /** `b` is a later state than `a`: no counter went down, and every entry
      of the map is still there, unchanged and in its place. */
  predicate Grows(a: State, b: State) {
    b.counters.Keys == a.counters.Keys
    && (forall c :: c in a.counters ==> a.counters[c] <= b.counters[c])
    && |a.vars| <= |b.vars| && b.vars[..|a.vars|] == a.vars
  }

  lemma GrowsTransitive(a: State, b: State, c: State)
    requires Grows(a, b) && Grows(b, c)
    ensures Grows(a, c)
  {
    assert c.vars[..|a.vars|] == c.vars[..|b.vars|][..|a.vars|];
  }

  /** An entry already in the map reads the same in any later state. */
  lemma {:induction false} LookupStable(a: State, b: State, name: string)
    requires Grows(a, b) && Lookup(a.vars, name).Some?
    ensures Lookup(b.vars, name) == Lookup(a.vars, name)
  {
    LookupPrefix(a.vars, b.vars[|a.vars|..], name);
    assert b.vars == a.vars + b.vars[|a.vars|..];
  }

  lemma {:induction false} LookupPrefix(v: seq<(string, Device)>, w: seq<(string, Device)>, name: string)
    requires Lookup(v, name).Some?
    ensures Lookup(v + w, name) == Lookup(v, name)
  {
    if v[0].0 != name {
      LookupPrefix(v[1..], w, name);
      assert (v + w)[1..] == v[1..] + w;
    }
  }

  lemma {:induction false} LookupAppendNew(v: seq<(string, Device)>, name: string, d: Device)
    requires name !in Names(v)
    ensures Lookup(v + [(name, d)], name) == Some(d)
  {
    if v != [] {
      assert Names(v)[0] == v[0].0;
      assert name !in Names(v[1..]) by {
        forall k | 0 <= k < |v[1..]| ensures Names(v[1..])[k] != name {
          assert Names(v[1..])[k] == Names(v)[k + 1];
        }
      }
      LookupAppendNew(v[1..], name, d);
      assert (v + [(name, d)])[1..] == v[1..] + [(name, d)];
    }
  }

  /** The address of `name`: the one `variable_map` already holds, or else
      the next number of `prefix`, which is recorded in the map and counted. */
  function Assign(st: State, name: string, prefix: char): (r: (Device, State))
    requires HasCounters(st) && prefix in ASSIGNED
    ensures HasCounters(r.1)
  {
    match Lookup(st.vars, name)
    case Some(d) => (d, st)
    case None =>
      var d := Device(prefix, st.counters[prefix]);
      (d, State(st.counters[prefix := st.counters[prefix] + 1], st.vars + [(name, d)]))
  }

  /** Assigning keeps the map consistent and only grows the state; the name
      then maps to the device returned. A name already mapped keeps its
      address and changes nothing; a new name takes the next number of its
      prefix, that counter alone goes up by one, and the new device is one no
      other name holds. */
  lemma AssignKeeps(st: State, name: string, prefix: char)
    requires Consistent(st) && prefix in ASSIGNED
    ensures Consistent(Assign(st, name, prefix).1) && Grows(st, Assign(st, name, prefix).1)
    ensures Lookup(Assign(st, name, prefix).1.vars, name) == Some(Assign(st, name, prefix).0)
    ensures Lookup(st.vars, name).Some? ==> Assign(st, name, prefix) == (Lookup(st.vars, name).value, st)
    ensures Lookup(st.vars, name).None? ==>
      Assign(st, name, prefix).0 == Device(prefix, st.counters[prefix])
      && Assign(st, name, prefix).1.counters == st.counters[prefix := st.counters[prefix] + 1]
      && forall k :: 0 <= k < |st.vars| ==> st.vars[k].1 != Assign(st, name, prefix).0
  {
    match Lookup(st.vars, name)
    case Some(d) =>
      assert Assign(st, name, prefix) == (d, st);
      GrowsReflexive(st);
    case None =>
      var d := Device(prefix, st.counters[prefix]);
      var s := State(st.counters[prefix := st.counters[prefix] + 1], st.vars + [(name, d)]);
      assert Assign(st, name, prefix) == (d, s);
      AssignNew(st, name, prefix);
  }

  lemma GrowsReflexive(st: State)
    ensures Grows(st, st)
  {
    assert st.vars[..|st.vars|] == st.vars;
  }

  lemma AssignNew(st: State, name: string, prefix: char)
    requires Consistent(st) && prefix in ASSIGNED && name !in Names(st.vars)
    ensures var d := Device(prefix, st.counters[prefix]);
      var s := State(st.counters[prefix := st.counters[prefix] + 1], st.vars + [(name, d)]);
      Consistent(s) && Grows(st, s) && Lookup(s.vars, name) == Some(d)
      && forall k :: 0 <= k < |st.vars| ==> st.vars[k].1 != d
  {
    var d := Device(prefix, st.counters[prefix]);
    var s := State(st.counters[prefix := st.counters[prefix] + 1], st.vars + [(name, d)]);
    NewEntryFresh(st, name, prefix);
    assert HasCounters(s);
    CounterBumpGrows(st, s, prefix);
    AppendPrefix(st.vars, [(name, d)]);
    AppendKeepsConsistent(st, s, name, d);
    LookupAppendNew(st.vars, name, d);
  }

  /** A counter going up by one leaves the keys and raises no other. */
  lemma CounterBumpGrows(st: State, s: State, prefix: char)
    requires HasCounters(st) && prefix in st.counters
    requires s.counters == st.counters[prefix := st.counters[prefix] + 1]
    ensures s.counters.Keys == st.counters.Keys
    ensures forall c :: c in st.counters ==> st.counters[c] <= s.counters[c]
  {
  }

  lemma AppendPrefix<T>(a: seq<T>, b: seq<T>)
    ensures (a + b)[..|a|] == a
  {
  }

  /** The device a new name takes is held by no name of the map, and the
      name itself is not there. */
  lemma NewEntryFresh(st: State, name: string, prefix: char)
    requires Consistent(st) && prefix in ASSIGNED && name !in Names(st.vars)
    ensures forall k :: 0 <= k < |st.vars| ==> st.vars[k].1 != Device(prefix, st.counters[prefix]) && st.vars[k].0 != name
  {
    forall k | 0 <= k < |st.vars| ensures st.vars[k].1 != Device(prefix, st.counters[prefix]) && st.vars[k].0 != name {
      assert Allocated(st, st.vars[k].1);
      assert Names(st.vars)[k] == st.vars[k].0;
    }
  }

  /** Appending a fresh name with a fresh, allocated device keeps the map
      consistent, provided no counter went down. */
  lemma AppendKeepsConsistent(st: State, s: State, name: string, d: Device)
    requires Consistent(st) && HasCounters(s) && s.vars == st.vars + [(name, d)] && Allocated(s, d)
    requires s.counters.Keys == st.counters.Keys
    requires forall c :: c in st.counters ==> st.counters[c] <= s.counters[c]
    requires forall k :: 0 <= k < |st.vars| ==> st.vars[k].1 != d && st.vars[k].0 != name
    ensures Consistent(s)
  {
    forall k | 0 <= k < |s.vars| ensures Allocated(s, s.vars[k].1) {
      if k < |st.vars| {
        assert s.vars[k] == st.vars[k];
        assert Allocated(st, st.vars[k].1);
      }
    }
    forall k, l | 0 <= k < l < |s.vars| ensures s.vars[k].0 != s.vars[l].0 && s.vars[k].1 != s.vars[l].1 {
      if l < |st.vars| {
        assert s.vars[k] == st.vars[k] && s.vars[l] == st.vars[l];
      } else {
        assert s.vars[l] == (name, d) && s.vars[k] == st.vars[k];
      }
    }
  }

  // ----------------------------------------------------------- THEN block

  /** `[p.strip() for p in parts]`. */
  function StripAll(parts: seq<string>): (r: seq<string>)
    ensures |r| == |parts| && forall k :: 0 <= k < |r| ==> r[k] == Strip(parts[k])
  {
    seq(|parts|, k requires 0 <= k < |parts| => Strip(parts[k]))
  }

  /** `[part.strip() for part in s.split(';') if part.strip()]`: the
      statements of one line. */
  function Statements(s: string): seq<string> {
    NonEmpty(StripAll(Split(s, ";")))
  }

  function NonEmpty(parts: seq<string>): (r: seq<string>)
    ensures forall k :: 0 <= k < |r| ==> r[k] != ""
  {
    if parts == [] then []
    else (if parts[0] != "" then [parts[0]] else []) + NonEmpty(parts[1..])
  }

  /** A `:=` occurrence survives `rstrip(';')`: the `=` after the colon is
      not a semicolon, so the stripped tail starts after it. */
  lemma RStripKeepsAssignment(p: string)
    requires Contains(p, ":=")
    ensures Contains(RStripChar(p, ';'), ":=")
  {
    var r := RStripChar(p, ';');
    var k := Find(p, ":=");
    assert p[k..k + 2] == ":=";
    assert p[k + 1] == p[k..k + 2][1] == '=';
    assert k + 2 <= |r|;
    assert r[k..k + 2] == p[k..k + 2];
    assert OccursAt(r, ":=", k);
  }

  /** What the loop `for assignment in assignments: if ':=' in assignment:
      then_block.append(assignment.rstrip(';'))` appends, in order. Every
      entry is an assignment. */
  function Collected(parts: seq<string>): (r: seq<string>)
    ensures forall k :: 0 <= k < |r| ==> Contains(r[k], ":=")
  {
    if parts == [] then []
    else
      var last := parts[|parts| - 1];
      Collected(parts[..|parts| - 1])
        + if Contains(last, ":=") then RStripKeepsAssignment(last); [RStripChar(last, ';')] else []
  }

  /** The assignments written on the IF line itself, after `THEN`, unless
      what follows is empty or starts with `END_IF`. */
  function IfLineAssignments(s: string): (r: seq<string>)
    ensures forall k :: 0 <= k < |r| ==> Contains(r[k], ":=")
  {
    if Contains(s, "THEN") then
      var after := Strip(AfterFirst(s, "THEN"));
      if after != "" && !StartsWith(after, "END_IF") then Collected(Statements(after)) else []
    else []
  }

  /** A line that closes the block being collected. */
  predicate EndsBlock(s: string) {
    StartsWith(s, "END_IF") || StartsWith(s, "END_IF;")
    || StartsWith(s, "IF") || StartsWith(s, "ELSIF") || StartsWith(s, "ELSE")
  }

  /** The assignments of a body line: none for an empty line, a `//` comment
      or a line without `:=`. */
  function BodyLineAssignments(s: string): (r: seq<string>)
    ensures forall k :: 0 <= k < |r| ==> Contains(r[k], ":=")
  {
    if s != "" && !StartsWith(s, "//") && Contains(s, ":=") then Collected(Statements(s)) else []
  }

  /** The scan of `_parse_if_statement` over `lines` from the current line:
      until `found` it looks for a line starting with `IF` and takes that
      line's own assignments; after it, it takes each line's assignments and
      stops at the first line that closes the block. */
  function ScanThen(lines: seq<string>, found: bool): (r: seq<string>)
    ensures forall k :: 0 <= k < |r| ==> Contains(r[k], ":=")
  {
    if lines == [] then []
    else
      var s := Strip(lines[0]);
      if !found then
        if StartsWith(s, "IF") then IfLineAssignments(s) + ScanThen(lines[1..], true)
        else ScanThen(lines[1..], false)
      else if EndsBlock(s) then []
      else BodyLineAssignments(s) + ScanThen(lines[1..], true)
  }

  /** `then_block`: the scan over the whole program from its first line. It
      does not depend on the IF line being parsed. */
  function ThenBlock(lines: seq<string>): (r: seq<string>)
    ensures forall k :: 0 <= k < |r| ==> Contains(r[k], ":=")
  {
    ScanThen(lines, false)
  }

  /** The THEN block is always the one of the FIRST line of the program that
      starts with `IF`, whichever IF statement is being parsed: its own
      assignments, then those of the lines after it. */
  lemma {:induction false} ThenBlockOfFirstIf(lines: seq<string>, k: nat)
    requires k < |lines| && StartsWith(Strip(lines[k]), "IF")
    requires forall j :: 0 <= j < k ==> !StartsWith(Strip(lines[j]), "IF")
    ensures ThenBlock(lines) == IfLineAssignments(Strip(lines[k])) + ScanThen(lines[k + 1..], true)
  {
    if k > 0 {
      assert !StartsWith(Strip(lines[0]), "IF");
      ThenBlockOfFirstIf(lines[1..], k - 1);
      assert lines[1..][k - 1 + 1..] == lines[k + 1..];
    }
  }

  /** Nothing after the first line that closes the block is collected. */
  lemma {:induction false} ScanStopsAtEnd(lines: seq<string>, j: nat)
    requires j < |lines| && EndsBlock(Strip(lines[j]))
    ensures ScanThen(lines, true) == ScanThen(lines[..j], true)
  {
    if j == 0 {
      assert ScanThen(lines, true) == [] by {
        ScanFoundStep(lines);
      }
      assert ScanThen(lines[..j], true) == [] by {
        assert lines[..j] == [];
      }
    } else {
      assert ScanThen(lines[1..], true) == ScanThen(lines[1..][..j - 1], true) by {
        assert lines[1..][j - 1] == lines[j];
        ScanStopsAtEnd(lines[1..], j - 1);
      }
      ScanStopsStep(lines, j);
    }
  }

  lemma ScanStopsStep(lines: seq<string>, j: nat)
    requires 0 < j < |lines|
    requires ScanThen(lines[1..], true) == ScanThen(lines[1..][..j - 1], true)
    ensures ScanThen(lines, true) == ScanThen(lines[..j], true)
  {
    TakeTail(lines, j);
    ScanSameHead(lines, lines[..j]);
  }

  lemma TakeTail<T>(s: seq<T>, j: nat)
    requires 0 < j <= |s|
    ensures s[..j] != [] && s[..j][0] == s[0] && s[..j][1..] == s[1..][..j - 1]
  {
  }

  /** Two programs with the same first line whose rests scan alike scan
      alike. */
  lemma ScanSameHead(a: seq<string>, b: seq<string>)
    requires a != [] && b != [] && a[0] == b[0]
    requires ScanThen(a[1..], true) == ScanThen(b[1..], true)
    ensures ScanThen(a, true) == ScanThen(b, true)
  {
    ScanFoundStep(a);
    ScanFoundStep(b);
  }

  /** A program with no line starting with `IF` has an empty THEN block. */
  lemma {:induction false} NoIfNoBlock(lines: seq<string>)
    requires forall j :: 0 <= j < |lines| ==> !StartsWith(Strip(lines[j]), "IF")
    ensures ThenBlock(lines) == []
  {
    if lines != [] {
      NoIfNoBlock(lines[1..]);
    }
  }

  // ----------------------------------------------------------- conditions

  /** `.replace('(', '').replace(')', '').replace('NOT', '').strip()`. */
  function CleanName(p: string): (r: string)
    ensures '(' !in r && ')' !in r
    ensures r == [] || (!IsSpace(r[0]) && !IsSpace(r[|r| - 1]))
  {
    var a := Remove(p, "(");
    RemoveDropsChar(p, '(');
    var b := Remove(a, ")");
    RemoveDropsChar(a, ')');
    Strip(Remove(b, "NOT"))
  }

  /** `if var: variables.append(var)`. */
  function Keep(v: string): (r: seq<string>)
    ensures forall k :: 0 <= k < |r| ==> r[k] == v && v != ""
  {
    if v != "" then [v] else []
  }

  /** A name the splitter may return: non-empty, no parentheses, no
      whitespace at either end. */
  predicate CleanVariable(v: string) {
    v != "" && '(' !in v && ')' !in v && !IsSpace(v[0]) && !IsSpace(v[|v| - 1])
  }

  /** The names of the `or_parts` loop, in order. */
  function CleanedNames(parts: seq<string>): (r: seq<string>)
    ensures forall k :: 0 <= k < |r| ==> CleanVariable(r[k])
  {
    if parts == [] then []
    else
      var init, v := CleanedNames(parts[..|parts| - 1]), CleanName(parts[|parts| - 1]);
      CleanAppend(init, v);
      init + Keep(v)
  }

  lemma CleanAppend(names: seq<string>, v: string)
    requires forall k :: 0 <= k < |names| ==> CleanVariable(names[k])
    requires '(' !in v && ')' !in v && (v == [] || (!IsSpace(v[0]) && !IsSpace(v[|v| - 1])))
    ensures forall k :: 0 <= k < |names + Keep(v)| ==> CleanVariable((names + Keep(v))[k])
  {
  }

  /** The names one AND part contributes: split again on `OR` when it holds
      ` OR `, else the part itself, cleaned. */
  function PartVariables(part: string): (r: seq<string>)
    ensures forall k :: 0 <= k < |r| ==> CleanVariable(r[k])
  {
    if Contains(part, " OR ") then CleanedNames(StripAll(Split(part, "OR")))
    else Keep(CleanName(part))
  }

  /** The names of the `and_parts` loop, in order. */
  function VariablesOf(andParts: seq<string>): (r: seq<string>)
    ensures forall k :: 0 <= k < |r| ==> CleanVariable(r[k])
  {
    if andParts == [] then []
    else VariablesOf(andParts[..|andParts| - 1]) + PartVariables(andParts[|andParts| - 1])
  }

  /** `_parse_condition_variables(condition)`: every name it returns is
      non-empty, free of parentheses and trimmed. */
  function ConditionVariables(condition: string): (r: seq<string>)
    ensures forall k :: 0 <= k < |r| ==> CleanVariable(r[k])
  {
    VariablesOf(StripAll(Split(condition, "AND")))
  }

  // ---------------------------------------------------------------- rungs

  /** An assignment holds a colon. */
  lemma AssignmentHasColon(a: string)
    requires Contains(a, ":=")
    ensures Contains(a, ":")
  {
    var k := Find(a, ":=");
    assert a[k..k + 1] == a[k..k + 2][..1] == ":";
    assert OccursAt(a, ":", k);
  }

  /** `assignment.split(':')[0].strip()`: the assigned variable. */
  function TargetName(a: string): string {
    Strip(Split(a, ":")[0])
  }

  /** `assignment.split(':')[1].strip()`: the text between the first colon
      and the next one. */
  function AssignedValue(a: string): string
    requires Contains(a, ":")
  {
    Strip(Split(a, ":")[1])
  }

  /** The `i`-th contact of a rung: normally open, for condition variable
      `v`, at `x = 40 + 80 i`, `y = 30`. */
  function ContactElement(d: Device, v: string, i: nat): Element {
    Element(Contact, Some(Address(d)), Some(v), Some(true), None, 40 + i * 80, 30)
  }

  /** The coil of a rung after `n` contacts, described as `name := value`. */
  function CoilElement(d: Device, name: string, value: string, n: nat): Element {
    Element(Coil, Some(Address(d)), Some(name + " := " + value), None, None, 40 + n * 80, 30)
  }

  /** The contacts for `cv[i..]`, each condition variable getting its
      address from the map or, when it has none, the next input `X`. */
  function Contacts(st: State, cv: seq<string>, i: nat): (r: (seq<Element>, State))
    requires HasCounters(st) && i <= |cv|
    ensures HasCounters(r.1)
    decreases |cv| - i
  {
    if i == |cv| then ([], st)
    else
      var (d, s1) := Assign(st, cv[i], 'X');
      var (rest, s2) := Contacts(s1, cv, i + 1);
      ([ContactElement(d, cv[i], i)] + rest, s2)
  }

  /** A THEN-block entry taken apart: the assigned variable and the value
      text. */
  datatype Assignment = Assignment(target: string, value: string)

  /** `var_name` and `value` of one entry holding `:=`. */
  function ParseAssignment(a: string): Assignment
    requires Contains(a, ":=")
  {
    AssignmentHasColon(a);
    Assignment(TargetName(a), AssignedValue(a))
  }

  /** The entries of the THEN block the rung loop acts on (`if ':=' in
      assignment`), taken apart, in order. */
  function ParsedAssignments(block: seq<string>): seq<Assignment> {
    var kept := Kept(block);
    seq(|kept|, i requires 0 <= i < |kept| => ParseAssignment(kept[i]))
  }

  /** The entries that hold `:=`, in order. */
  function Kept(block: seq<string>): (r: seq<string>)
    ensures forall k :: 0 <= k < |r| ==> Contains(r[k], ":=")
  {
    if block == [] then []
    else (if Contains(block[0], ":=") then [block[0]] else []) + Kept(block[1..])
  }

  /** The rung for one assignment: the assigned variable gets its address
      (an output or internal relay when new) before the contacts are made. */
  function AssignmentRung(st: State, asg: Assignment, cv: seq<string>): (r: (Rung, State))
    requires HasCounters(st)
    ensures HasCounters(r.1)
  {
    var (d, s1) := Assign(st, asg.target, OutputPrefix(asg.target));
    var (contacts, s2) := Contacts(s1, cv, 0);
    (Rung(Some(contacts + [CoilElement(d, asg.target, asg.value, |cv|)])), s2)
  }

  /** The rungs for `asgs[j..]`, one per assignment. */
  function RungsFrom(st: State, asgs: seq<Assignment>, cv: seq<string>, j: nat): (r: (seq<Rung>, State))
    requires HasCounters(st) && j <= |asgs|
    ensures HasCounters(r.1)
    ensures |r.0| == |asgs| - j
    decreases |asgs| - j
  {
    if j == |asgs| then ([], st)
    else
      var (rung, s1) := AssignmentRung(st, asgs[j], cv);
      var (rest, s2) := RungsFrom(s1, asgs, cv, j + 1);
      ([rung] + rest, s2)
  }

  /** `_parse_if_statement(if_line, lines)`: no rungs when the IF pattern
      does not match or the THEN block is empty; otherwise one rung per
      assignment of the THEN block, each conditioned on every variable of
      this IF line's condition. */
  function IfStatement(st: State, ifLine: string, lines: seq<string>, condMatch: Matcher): (r: (seq<Rung>, State))
    requires HasCounters(st)
    ensures HasCounters(r.1)
  {
    match condMatch(ifLine)
    case None => ([], st)
    case Some(group) =>
      var block := ThenBlock(lines);
      if block == [] then ([], st)
      else RungsFrom(st, ParsedAssignments(block), ConditionVariables(Strip(group)), 0)
  }

  /** `_parse_variable_declaration(line)`: a line mentioning `BOOL` whose
      pattern matches maps the captured name, if it is new. */
  function Declaration(st: State, line: string, declMatch: Matcher): (r: State)
    requires HasCounters(st)
    ensures HasCounters(r)
  {
    if Contains(line, "BOOL") then
      match declMatch(line)
      case None => st
      case Some(name) => Assign(st, name, DeclarationPrefix(name)).1
    else st
  }

  /** A line `convert` skips: empty, or a `//` or `(*` comment. */
  predicate Skipped(s: string) {
    s == "" || StartsWith(s, "//") || StartsWith(s, "(*")
  }

  /** A line `convert` treats as a declaration. */
  predicate DeclarationLine(s: string) {
    Contains(s, ":") && (Contains(s, "VAR") || Contains(s, "VAR_INPUT") || Contains(s, "VAR_OUTPUT"))
  }

  /** One line of `convert`'s loop; `lines` is the whole program, which the
      IF rule scans again. */
  function ConvertLine(st: State, line: string, lines: seq<string>, declMatch: Matcher, condMatch: Matcher): (r: (seq<Rung>, State))
    requires HasCounters(st)
    ensures HasCounters(r.1)
  {
    var s := Strip(line);
    if Skipped(s) then ([], st)
    else if DeclarationLine(s) then ([], Declaration(st, s, declMatch))
    else if StartsWith(s, "IF") then IfStatement(st, s, lines, condMatch)
    else ([], st)
  }

  /** `convert`'s loop from line `i` on. */
  function ConvertFrom(st: State, lines: seq<string>, i: nat, declMatch: Matcher, condMatch: Matcher): (r: (seq<Rung>, State))
    requires HasCounters(st) && i <= |lines|
    ensures HasCounters(r.1)
    decreases |lines| - i
  {
    if i == |lines| then ([], st)
    else
      var (r1, s1) := ConvertLine(st, lines[i], lines, declMatch, condMatch);
      var (r2, s2) := ConvertFrom(s1, lines, i + 1, declMatch, condMatch);
      (r1 + r2, s2)
  }

  /** The lines `convert` walks: `source_code.strip().split('\n')`. */
  function SourceLines(source: string): seq<string> {
    Split(Strip(source), "\n")
  }

  /** `convert(source_code)`: the rungs, and the state it leaves behind. It
      starts from the reset state, so it is a function of the source alone. */
  function Conversion(source: string, declMatch: Matcher, condMatch: Matcher): (r: (seq<Rung>, State))
    ensures HasCounters(r.1)
  {
    ConvertFrom(Initial(), SourceLines(source), 0, declMatch, condMatch)
  }

  // ------------------------------------------- one step of each recursion

  lemma ContactsStep(st: State, cv: seq<string>, i: nat)
    requires HasCounters(st) && i < |cv|
    ensures var s1 := Assign(st, cv[i], 'X').1;
      Contacts(st, cv, i)
      == ([ContactElement(Assign(st, cv[i], 'X').0, cv[i], i)] + Contacts(s1, cv, i + 1).0, Contacts(s1, cv, i + 1).1)
  {
  }

  lemma RungsFromStep(st: State, asgs: seq<Assignment>, cv: seq<string>, j: nat)
    requires HasCounters(st) && j < |asgs|
    ensures var s1 := AssignmentRung(st, asgs[j], cv).1;
      RungsFrom(st, asgs, cv, j)
      == ([AssignmentRung(st, asgs[j], cv).0] + RungsFrom(s1, asgs, cv, j + 1).0, RungsFrom(s1, asgs, cv, j + 1).1)
  {
  }

  lemma ConvertFromStep(st: State, lines: seq<string>, i: nat, declMatch: Matcher, condMatch: Matcher)
    requires HasCounters(st) && i < |lines|
    ensures var (r1, s1) := ConvertLine(st, lines[i], lines, declMatch, condMatch);
      ConvertFrom(st, lines, i, declMatch, condMatch)
      == (r1 + ConvertFrom(s1, lines, i + 1, declMatch, condMatch).0, ConvertFrom(s1, lines, i + 1, declMatch, condMatch).1)
  {
  }

  lemma ScanFoundStep(lines: seq<string>)
    requires lines != []
    ensures ScanThen(lines, true)
         == if EndsBlock(Strip(lines[0])) then [] else BodyLineAssignments(Strip(lines[0])) + ScanThen(lines[1..], true)
  {
  }

  lemma ScanThenStep(lines: seq<string>, found: bool)
    requires lines != []
    ensures var s := Strip(lines[0]);
      ScanThen(lines, found)
      == if !found then
           if StartsWith(s, "IF") then IfLineAssignments(s) + ScanThen(lines[1..], true)
           else ScanThen(lines[1..], false)
         else if EndsBlock(s) then []
         else BodyLineAssignments(s) + ScanThen(lines[1..], true)
  {
  }

  // ----------------------------------------------- what a conversion keeps

  /** Element `e` is accounted for in the map: its address is the address of
      a mapped variable, and that variable is the one the element is about (a
      contact's description; the left-hand side of a coil's description). */
  predicate Listed(vars: seq<(string, Device)>, e: Element) {
    e.address.Some? && e.description.Some?
    && exists k :: 0 <= k < |vars| && ListedAs(vars[k], e)
  }

  /** `e` carries the address of `entry` and is about its variable. */
  predicate ListedAs(entry: (string, Device), e: Element)
    requires e.address.Some? && e.description.Some?
  {
    e.address.value == Address(entry.1)
    && (e.kind == Contact ==> e.description.value == entry.0)
    && (e.kind == Coil ==> StartsWith(e.description.value, entry.0 + " := "))
  }

  predicate AllListed(vars: seq<(string, Device)>, es: seq<Element>) {
    forall j :: 0 <= j < |es| ==> Listed(vars, es[j])
  }

  predicate RungsListed(vars: seq<(string, Device)>, rungs: seq<Rung>) {
    forall i :: 0 <= i < |rungs| ==> AllListed(vars, ElementsOf(rungs[i]))
  }

  lemma ListedGrows(a: State, b: State, es: seq<Element>)
    requires Grows(a, b) && AllListed(a.vars, es)
    ensures AllListed(b.vars, es)
  {
    forall j | 0 <= j < |es| ensures Listed(b.vars, es[j]) {
      var k :| 0 <= k < |a.vars| && ListedAs(a.vars[k], es[j]);
      assert b.vars[k] == b.vars[..|a.vars|][k] == a.vars[k];
    }
  }

  lemma RungsListedGrows(a: State, b: State, rungs: seq<Rung>)
    requires Grows(a, b) && RungsListed(a.vars, rungs)
    ensures RungsListed(b.vars, rungs)
  {
    forall i | 0 <= i < |rungs| ensures AllListed(b.vars, ElementsOf(rungs[i])) {
      ListedGrows(a, b, ElementsOf(rungs[i]));
    }
  }

  /** Making contacts keeps the map consistent, only grows the state, and
      leaves every contact's variable mapped to that contact's address. */
  lemma {:induction false} ContactsKeep(st: State, cv: seq<string>, i: nat)
    requires Consistent(st) && i <= |cv|
    ensures Consistent(Contacts(st, cv, i).1) && Grows(st, Contacts(st, cv, i).1)
    ensures AllListed(Contacts(st, cv, i).1.vars, Contacts(st, cv, i).0)
    decreases |cv| - i
  {
    if i < |cv| {
      var d, s1 := Assign(st, cv[i], 'X').0, Assign(st, cv[i], 'X').1;
      AssignKeeps(st, cv[i], 'X');
      ContactsKeep(s1, cv, i + 1);
      var rest, s2 := Contacts(s1, cv, i + 1).0, Contacts(s1, cv, i + 1).1;
      GrowsTransitive(st, s1, s2);
      var c := ContactElement(d, cv[i], i);
      assert AllListed(s1.vars, [c]);
      ListedGrows(s1, s2, [c]);
      ContactsStep(st, cv, i);
      ListedConcat(s2.vars, [c], rest);
    }
  }

  lemma ListedConcat(vars: seq<(string, Device)>, a: seq<Element>, b: seq<Element>)
    requires AllListed(vars, a) && AllListed(vars, b)
    ensures AllListed(vars, a + b)
  {
    forall j | 0 <= j < |a + b| ensures Listed(vars, (a + b)[j]) {
      if j >= |a| {
        assert (a + b)[j] == b[j - |a|];
      }
    }
  }

  /** The same for the rung of one assignment, coil included. */
  lemma AssignmentRungKeeps(st: State, asg: Assignment, cv: seq<string>)
    requires Consistent(st)
    ensures Consistent(AssignmentRung(st, asg, cv).1) && Grows(st, AssignmentRung(st, asg, cv).1)
    ensures AllListed(AssignmentRung(st, asg, cv).1.vars, ElementsOf(AssignmentRung(st, asg, cv).0))
  {
    var name := asg.target;
    var (d, s1) := Assign(st, name, OutputPrefix(name));
    AssignKeeps(st, name, OutputPrefix(name));
    ContactsKeep(s1, cv, 0);
    var (contacts, s2) := Contacts(s1, cv, 0);
    GrowsTransitive(st, s1, s2);
    var coil := CoilElement(d, name, asg.value, |cv|);
    assert StartsWith(coil.description.value, name + " := ") by {
      assert coil.description.value == (name + " := ") + asg.value;
    }
    assert AllListed(s1.vars, [coil]);
    ListedGrows(s1, s2, [coil]);
    assert ElementsOf(AssignmentRung(st, asg, cv).0) == contacts + [coil];
  }

  /** `b` follows `a` keeping the map consistent, and `rungs` are all
      accounted for in `b`'s map. */
  predicate Keeps(a: State, b: State, rungs: seq<Rung>) {
    Consistent(b) && Grows(a, b) && RungsListed(b.vars, rungs)
  }

  lemma KeepsChain(a: State, b: State, c: State, r1: seq<Rung>, r2: seq<Rung>)
    requires Keeps(a, b, r1) && Keeps(b, c, r2)
    ensures Keeps(a, c, r1 + r2)
  {
    GrowsTransitive(a, b, c);
    RungsListedGrows(b, c, r1);
    forall k | 0 <= k < |r1 + r2| ensures AllListed(c.vars, ElementsOf((r1 + r2)[k])) {
      if k < |r1| {
        assert (r1 + r2)[k] == r1[k];
      } else {
        assert (r1 + r2)[k] == r2[k - |r1|];
      }
    }
  }

  lemma KeepsStill(st: State)
    requires Consistent(st)
    ensures Keeps(st, st, [])
  {
    assert st.vars[..|st.vars|] == st.vars;
  }

  /** The same for all the rungs of a THEN block. */
  lemma {:induction false} RungsFromKeep(st: State, asgs: seq<Assignment>, cv: seq<string>, j: nat)
    requires Consistent(st) && j <= |asgs|
    ensures Keeps(st, RungsFrom(st, asgs, cv, j).1, RungsFrom(st, asgs, cv, j).0)
    decreases |asgs| - j
  {
    if j == |asgs| {
      KeepsStill(st);
    } else {
      var (rung, s1) := AssignmentRung(st, asgs[j], cv);
      AssignmentRungKeeps(st, asgs[j], cv);
      assert Keeps(st, s1, [rung]);
      RungsFromKeep(s1, asgs, cv, j + 1);
      var (rest, s2) := RungsFrom(s1, asgs, cv, j + 1);
      KeepsChain(st, s1, s2, [rung], rest);
    }
  }

  lemma IfStatementKeeps(st: State, ifLine: string, lines: seq<string>, condMatch: Matcher)
    requires Consistent(st)
    ensures Keeps(st, IfStatement(st, ifLine, lines, condMatch).1, IfStatement(st, ifLine, lines, condMatch).0)
  {
    if condMatch(ifLine).Some? && ThenBlock(lines) != [] {
      var asgs := ParsedAssignments(ThenBlock(lines));
      var cv := ConditionVariables(Strip(condMatch(ifLine).value));
      RungsFromKeep(st, asgs, cv, 0);
      assert IfStatement(st, ifLine, lines, condMatch) == RungsFrom(st, asgs, cv, 0);
    } else {
      KeepsStill(st);
    }
  }

  lemma DeclarationKeeps(st: State, line: string, declMatch: Matcher)
    requires Consistent(st)
    ensures Keeps(st, Declaration(st, line, declMatch), [])
  {
    if Contains(line, "BOOL") && declMatch(line).Some? {
      var name := declMatch(line).value;
      AssignKeeps(st, name, DeclarationPrefix(name));
    } else {
      KeepsStill(st);
    }
  }

  lemma ConvertLineKeeps(st: State, line: string, lines: seq<string>, declMatch: Matcher, condMatch: Matcher)
    requires Consistent(st)
    ensures Keeps(st, ConvertLine(st, line, lines, declMatch, condMatch).1, ConvertLine(st, line, lines, declMatch, condMatch).0)
  {
    var s := Strip(line);
    if Skipped(s) {
      KeepsStill(st);
    } else if DeclarationLine(s) {
      DeclarationKeeps(st, s, declMatch);
    } else if StartsWith(s, "IF") {
      IfStatementKeeps(st, s, lines, condMatch);
    } else {
      KeepsStill(st);
    }
  }

  lemma {:induction false} ConvertFromKeeps(st: State, lines: seq<string>, i: nat, declMatch: Matcher, condMatch: Matcher)
    requires Consistent(st) && i <= |lines|
    ensures Keeps(st, ConvertFrom(st, lines, i, declMatch, condMatch).1, ConvertFrom(st, lines, i, declMatch, condMatch).0)
    decreases |lines| - i
  {
    if i == |lines| {
      KeepsStill(st);
    } else {
      var (r1, s1) := ConvertLine(st, lines[i], lines, declMatch, condMatch);
      ConvertLineKeeps(st, lines[i], lines, declMatch, condMatch);
      ConvertFromKeeps(s1, lines, i + 1, declMatch, condMatch);
      var (r2, s2) := ConvertFrom(s1, lines, i + 1, declMatch, condMatch);
      KeepsChain(st, s1, s2, r1, r2);
    }
  }

  /** After a conversion the variable map is consistent (no name or device
      twice, every device below its counter), and every element of every rung
      carries the address the map gives the variable it is about, so the
      device list built from the map names every address the diagram uses. */
  lemma ConversionKeeps(source: string, declMatch: Matcher, condMatch: Matcher)
    ensures Consistent(Conversion(source, declMatch, condMatch).1)
    ensures RungsListed(Conversion(source, declMatch, condMatch).1.vars, Conversion(source, declMatch, condMatch).0)
  {
    ConvertFromKeeps(Initial(), SourceLines(source), 0, declMatch, condMatch);
  }

  // ---------------------------------------------------------- rung shapes

  /** The contacts for `cv[i..]` are normally-open contacts on those
      variables, in order, 80 apart from `x = 40 + 80 i` on the line `y = 30`. */
  lemma {:induction false} ContactsShape(st: State, cv: seq<string>, i: nat)
    requires HasCounters(st) && i <= |cv|
    ensures var es := Contacts(st, cv, i).0;
      |es| == |cv| - i
      && forall k :: 0 <= k < |es| ==>
        es[k].kind == Contact && es[k].isNormallyOpen == Some(true) && es[k].description == Some(cv[i + k])
        && es[k].x == 40 + (i + k) * 80 && es[k].y == 30
    decreases |cv| - i
  {
    if i < |cv| {
      ContactsShape(Assign(st, cv[i], 'X').1, cv, i + 1);
    }
  }

  /** A rung of contacts, one per condition variable in order, followed by
      exactly one coil; the coil sits after the last contact and is described
      as the assignment `target := value`. */
  predicate RungShape(r: Rung, cv: seq<string>, asg: Assignment) {
    var es := ElementsOf(r);
    |es| == |cv| + 1
    && (forall k :: 0 <= k < |cv| ==>
        es[k].kind == Contact && es[k].isNormallyOpen == Some(true) && es[k].description == Some(cv[k])
        && es[k].x == 40 + k * 80 && es[k].y == 30)
    && es[|cv|].kind == Coil && es[|cv|].isNormallyOpen == None
    && es[|cv|].description == Some(asg.target + " := " + asg.value)
    && es[|cv|].x == 40 + |cv| * 80 && es[|cv|].y == 30
  }

  lemma AssignmentRungShape(st: State, asg: Assignment, cv: seq<string>)
    requires HasCounters(st)
    ensures RungShape(AssignmentRung(st, asg, cv).0, cv, asg)
  {
    var (d, s1) := Assign(st, asg.target, OutputPrefix(asg.target));
    var contacts := Contacts(s1, cv, 0).0;
    ContactsShape(s1, cv, 0);
    var coil := CoilElement(d, asg.target, asg.value, |cv|);
    assert AssignmentRung(st, asg, cv).0 == Rung(Some(contacts + [coil]));
    var es := contacts + [coil];
    assert es[|cv|] == coil;
    assert forall k :: 0 <= k < |cv| ==> es[k] == contacts[k];
  }

  /** Rung `k` of `rungs` has the shape of the one for `asgs[j + k]`, for
      every `k`. */
  predicate AllShaped(rungs: seq<Rung>, asgs: seq<Assignment>, cv: seq<string>, j: nat)
    decreases |rungs|
  {
    j + |rungs| <= |asgs|
    && (rungs == [] || (RungShape(rungs[0], cv, asgs[j]) && AllShaped(rungs[1..], asgs, cv, j + 1)))
  }

  lemma AllShapedCons(first: Rung, rest: seq<Rung>, asgs: seq<Assignment>, cv: seq<string>, j: nat)
    requires j < |asgs| && RungShape(first, cv, asgs[j]) && AllShaped(rest, asgs, cv, j + 1)
    ensures AllShaped([first] + rest, asgs, cv, j)
  {
    assert ([first] + rest)[1..] == rest;
  }

  lemma {:induction false} AllShapedAt(rungs: seq<Rung>, asgs: seq<Assignment>, cv: seq<string>, j: nat, k: nat)
    requires AllShaped(rungs, asgs, cv, j) && k < |rungs|
    ensures RungShape(rungs[k], cv, asgs[j + k])
    decreases k
  {
    if k > 0 {
      AllShapedAt(rungs[1..], asgs, cv, j + 1, k - 1);
      assert rungs[1..][k - 1] == rungs[k];
      assert j + 1 + (k - 1) == j + k;
    }
  }

  /** Every rung made from `asgs[j..]` has the shape of its assignment's. */
  lemma {:induction false} RungsFromShaped(st: State, asgs: seq<Assignment>, cv: seq<string>, j: nat)
    requires HasCounters(st) && j <= |asgs|
    ensures AllShaped(RungsFrom(st, asgs, cv, j).0, asgs, cv, j)
    decreases |asgs| - j
  {
    if j < |asgs| {
      var s1 := AssignmentRung(st, asgs[j], cv).1;
      var first := AssignmentRung(st, asgs[j], cv).0;
      RungsFromStep(st, asgs, cv, j);
      AssignmentRungShape(st, asgs[j], cv);
      RungsFromShaped(s1, asgs, cv, j + 1);
      AllShapedCons(first, RungsFrom(s1, asgs, cv, j + 1).0, asgs, cv, j);
    }
  }

  /** The `k`-th rung made from `asgs[j..]` is the one for `asgs[j + k]`. */
  lemma RungsFromShape(st: State, asgs: seq<Assignment>, cv: seq<string>, j: nat, k: nat)
    requires HasCounters(st) && j + k < |asgs|
    ensures |RungsFrom(st, asgs, cv, j).0| == |asgs| - j
    ensures RungShape(RungsFrom(st, asgs, cv, j).0[k], cv, asgs[j + k])
  {
    RungsFromShaped(st, asgs, cv, j);
    AllShapedAt(RungsFrom(st, asgs, cv, j).0, asgs, cv, j, k);
  }

  /** When every entry holds `:=`, each is taken apart in place. */
  lemma ParsedAt(block: seq<string>, k: nat)
    requires k < |block| && forall i :: 0 <= i < |block| ==> Contains(block[i], ":=")
    ensures |ParsedAssignments(block)| == |block|
    ensures ParsedAssignments(block)[k] == ParseAssignment(block[k])
  {
    KeptAll(block);
  }

  lemma ParsedCount(block: seq<string>)
    requires forall i :: 0 <= i < |block| ==> Contains(block[i], ":=")
    ensures |ParsedAssignments(block)| == |block|
  {
    KeptAll(block);
  }

  /** When every entry holds `:=`, none is dropped. */
  lemma {:induction false} KeptAll(block: seq<string>)
    requires forall i :: 0 <= i < |block| ==> Contains(block[i], ":=")
    ensures Kept(block) == block
  {
    if block != [] {
      KeptAll(block[1..]);
      assert [block[0]] + block[1..] == block;
    }
  }

  /** An IF statement whose pattern matches yields exactly one rung per
      entry of the THEN block; with no match, or an empty block, it yields
      none and changes nothing. */
  lemma IfStatementCount(st: State, ifLine: string, lines: seq<string>, condMatch: Matcher)
    requires HasCounters(st)
    ensures condMatch(ifLine).None? || ThenBlock(lines) == [] ==> IfStatement(st, ifLine, lines, condMatch) == ([], st)
    ensures condMatch(ifLine).Some? ==> |IfStatement(st, ifLine, lines, condMatch).0| == |ThenBlock(lines)|
  {
    if condMatch(ifLine).Some? && ThenBlock(lines) != [] {
      var block := ThenBlock(lines);
      ParsedCount(block);
    }
  }

  /** The `k`-th rung of a matched IF statement is the one for the `k`-th
      entry of the THEN block: a contact for each variable of this IF line's
      condition, then the coil for that entry's assignment. */
  lemma IfStatementRung(st: State, ifLine: string, lines: seq<string>, condMatch: Matcher, k: nat)
    requires HasCounters(st) && condMatch(ifLine).Some? && k < |ThenBlock(lines)|
    ensures |IfStatement(st, ifLine, lines, condMatch).0| == |ThenBlock(lines)|
    ensures RungShape(IfStatement(st, ifLine, lines, condMatch).0[k],
      ConditionVariables(Strip(condMatch(ifLine).value)), ParseAssignment(ThenBlock(lines)[k]))
  {
    var block := ThenBlock(lines);
    var rungs := IfStatement(st, ifLine, lines, condMatch).0;
    var cv := ConditionVariables(Strip(condMatch(ifLine).value));
    var asgs := ParsedAssignments(block);
    assert |rungs| == |block| by { IfStatementCount(st, ifLine, lines, condMatch); }
    assert |asgs| == |block| && asgs[k] == ParseAssignment(block[k]) by { ParsedAt(block, k); }
    assert AllShaped(rungs, asgs, cv, 0) by { IfStatementShaped(st, ifLine, lines, condMatch); }
    ShapedEntry(rungs, asgs, cv, block, k);
  }

  lemma ShapedEntry(rungs: seq<Rung>, asgs: seq<Assignment>, cv: seq<string>, block: seq<string>, k: nat)
    requires AllShaped(rungs, asgs, cv, 0) && k < |rungs| && k < |block| && k < |asgs|
    requires Contains(block[k], ":=") && asgs[k] == ParseAssignment(block[k])
    ensures RungShape(rungs[k], cv, ParseAssignment(block[k]))
  {
    AllShapedAt(rungs, asgs, cv, 0, k);
    assert 0 + k == k;
  }

  lemma IfStatementShaped(st: State, ifLine: string, lines: seq<string>, condMatch: Matcher)
    requires HasCounters(st) && condMatch(ifLine).Some? && ThenBlock(lines) != []
    ensures AllShaped(IfStatement(st, ifLine, lines, condMatch).0, ParsedAssignments(ThenBlock(lines)),
      ConditionVariables(Strip(condMatch(ifLine).value)), 0)
  {
    RungsFromShaped(st, ParsedAssignments(ThenBlock(lines)), ConditionVariables(Strip(condMatch(ifLine).value)), 0);
  }

  /** The value in a coil's description keeps the `=` of `:=`: the entry
      is cut at colons, so for `name := v` the part after the first colon is
      `= v`, and the coil reads `name := = v`. */
  lemma CoilDescriptionKeepsEquals(name: string, v: string)
    requires Trimmed(name) && Trimmed(v) && ':' !in name && ':' !in v
    ensures Contains(name + " := " + v, ":=")
    ensures ParseAssignment(name + " := " + v) == Assignment(name, "= " + v)
  {
    var a := name + " := " + v;
    AssignmentText(name, v);
    ColonSplit(name, v);
    StripPadded(name);
    EqualsTrimmed(v);
    StripPadded("= " + v);
    assert TargetName(a) == Strip(name + " ");
    assert AssignedValue(a) == Strip("= " + v);
  }

  lemma EqualsTrimmed(v: string)
    requires Trimmed(v)
    ensures Trimmed("= " + v)
  {
    var e := "= " + v;
    assert e[0] == '=';
    assert e[|e| - 1] == v[|v| - 1];
  }

  lemma AssignmentText(name: string, v: string)
    ensures Contains(name + " := " + v, ":=")
  {
    var a := name + " := " + v;
    assert a[|name| + 1..|name| + 3] == ":=";
    assert OccursAt(a, ":=", |name| + 1);
  }

  /** `name := v` cut at colons, when neither side holds one. */
  lemma ColonSplit(name: string, v: string)
    requires ':' !in name && ':' !in v
    ensures Split(name + " := " + v, ":") == [name + " ", "= " + v]
  {
    assert name + " := " + v == (name + " ") + [':'] + ("= " + v);
    assert ':' !in name + " ";
    SplitAtChar(name + " ", ':', "= " + v);
    assert ':' !in "= " + v;
    SplitNoChar("= " + v, ':');
  }

  // ------------------------------------------------- condition round trip

  /** A character of `\w`. */
  predicate IsWordChar(c: char) {
    'a' <= c <= 'z' || 'A' <= c <= 'Z' || '0' <= c <= '9' || c == '_'
  }

  /** A plain condition variable: a non-empty word holding neither `AND`
      nor `NOT`. */
  predicate PlainVariable(v: string) {
    v != "" && (forall i :: 0 <= i < |v| ==> IsWordChar(v[i]))
    && !Contains(v, "AND") && !Contains(v, "NOT")
  }

  /** A word holds no parenthesis and no space. */
  lemma PlainChars(v: string)
    requires PlainVariable(v)
    ensures '(' !in v && ')' !in v && ' ' !in v && Trimmed(v)
  {
    forall i | 0 <= i < |v| ensures v[i] != '(' && v[i] != ')' && v[i] != ' ' && !IsSpace(v[i]) {
      assert IsWordChar(v[i]);
    }
  }

  /** The splitter leaves a plain variable as it is. */
  lemma PlainIsClean(v: string)
    requires PlainVariable(v)
    ensures CleanName(v) == v && PartVariables(v) == [v]
  {
    PlainCleanName(v);
    PlainChars(v);
    MissingChar(v, " OR ", 0);
  }

  lemma PlainCleanName(v: string)
    requires PlainVariable(v)
    ensures CleanName(v) == v
  {
    PlainChars(v);
    CharAbsent(v, '(');
    RemoveAbsent(v, "(");
    CharAbsent(v, ')');
    RemoveAbsent(v, ")");
    RemoveAbsent(v, "NOT");
    StripPadded(v);
  }

  /** No `AND` in a plain variable with at most one space before it. */
  lemma NoAndInPadded(lead: string, n: string)
    requires (lead == "" || lead == " ") && PlainVariable(n)
    ensures Split(lead + n, "AND") == [lead + n]
  {
    var x := lead + n;
    assert x[|lead|..|lead| + |n|] == n;
    NotInside(x, n, |lead|, "AND");
    if lead == " " {
      NotAcrossSpace(x, "AND", 0);
    }
    assert forall i :: !OccursAt(x, "AND", i);
  }

  /** In `lead + n + " AND " + rest` the first `AND` is the separator. */
  lemma AndAfterPadded(lead: string, n: string, rest: string)
    requires (lead == "" || lead == " ") && PlainVariable(n)
    ensures var x := lead + n + " " + "AND" + rest;
      Split(x, "AND") == [lead + n + " "] + Split(rest, "AND")
  {
    var l := lead + n + " ";
    var x := l + "AND" + rest;
    assert x == (lead + n) + (" " + "AND" + rest);
    assert x[..|lead| + |n|] == lead + n;
    assert x[|lead|..|lead| + |n|] == x[..|lead| + |n|][|lead|..] == n;
    assert x[|lead| + |n|] == ' ';
    NotInside(x, n, |lead|, "AND");
    NotAcrossSpace(x, "AND", |lead| + |n|);
    if lead == " " {
      assert x[0] == ' ';
      NotAcrossSpace(x, "AND", 0);
    }
    assert x[|l|..|l| + 3] == "AND";
    assert OccursAt(x, "AND", |l|);
    assert forall i :: 0 <= i < |l| ==> !OccursAt(x, "AND", i);
    assert Find(x, "AND") == |l|;
    assert x[..|l|] == l && x[|l| + 3..] == rest;
  }

  lemma StripAllConcat(a: seq<string>, b: seq<string>)
    ensures StripAll(a + b) == StripAll(a) + StripAll(b)
  {
  }

  /** Splitting a ` AND `-joined list of plain variables (after an optional
      leading space) on `AND` and stripping the parts gives the variables. */
  lemma {:induction false} SplitConjunction(names: seq<string>, lead: string)
    requires |names| >= 1 && (lead == "" || lead == " ")
    requires forall k :: 0 <= k < |names| ==> PlainVariable(names[k])
    ensures StripAll(Split(lead + Join(names, " AND "), "AND")) == names
  {
    if |names| == 1 {
      SingleConjunct(names, lead);
    } else {
      SplitConjunction(names[1..], " ");
      ConjunctStep(names, lead);
    }
  }

  lemma SingleConjunct(names: seq<string>, lead: string)
    requires |names| == 1 && (lead == "" || lead == " ") && PlainVariable(names[0])
    ensures StripAll(Split(lead + Join(names, " AND "), "AND")) == names
  {
    var n := names[0];
    assert lead + Join(names, " AND ") == lead + n;
    assert names == [n];
    OneConjunct(lead, n);
  }

  lemma OneConjunct(lead: string, n: string)
    requires (lead == "" || lead == " ") && PlainVariable(n)
    ensures StripAll(Split(lead + n, "AND")) == [n]
  {
    var x := lead + n;
    assert Split(x, "AND") == [x] by { NoAndInPadded(lead, n); }
    assert Strip(x) == n by { PlainChars(n); PaddedStrip(lead, n); }
  }

  /** The first `AND` of a joined list of two or more plain variables ends
      the first one. */
  lemma JoinedHead(names: seq<string>, lead: string)
    requires |names| >= 2 && (lead == "" || lead == " ") && PlainVariable(names[0])
    ensures Split(lead + Join(names, " AND "), "AND")
      == [lead + names[0] + " "] + Split(" " + Join(names[1..], " AND "), "AND")
  {
    var rest := Join(names[1..], " AND ");
    assert lead + Join(names, " AND ") == lead + names[0] + " " + "AND" + (" " + rest);
    AndAfterPadded(lead, names[0], " " + rest);
  }

  lemma ConjunctStep(names: seq<string>, lead: string)
    requires |names| >= 2 && (lead == "" || lead == " ") && PlainVariable(names[0])
    requires StripAll(Split(" " + Join(names[1..], " AND "), "AND")) == names[1..]
    ensures StripAll(Split(lead + Join(names, " AND "), "AND")) == names
  {
    var l := lead + names[0] + " ";
    JoinedHead(names, lead);
    assert Strip(l) == names[0] by { PlainChars(names[0]); PaddedStrip(lead, names[0]); }
    StripHead(l, Split(" " + Join(names[1..], " AND "), "AND"));
    ConsEq(names);
  }

  lemma StripHead(l: string, tail: seq<string>)
    ensures StripAll([l] + tail) == [Strip(l)] + StripAll(tail)
  {
    StripAllConcat([l], tail);
  }

  lemma ConsEq(ns: seq<string>)
    requires |ns| >= 1
    ensures [ns[0]] + ns[1..] == ns
  {
  }

  /** Stripping a trimmed name with its optional leading space, and with
      or without one trailing space, gives the name. */
  lemma PaddedStrip(lead: string, n: string)
    requires (lead == "" || lead == " ") && Trimmed(n)
    ensures Strip(lead + n) == n && Strip(lead + n + " ") == n
  {
    if lead == "" {
      assert lead + n == n && lead + n + " " == n + " ";
    } else {
      assert lead + n + " " == " " + n + " ";
    }
    StripPadded(n);
  }

  lemma {:induction false} PlainVariablesOf(names: seq<string>)
    requires forall k :: 0 <= k < |names| ==> PlainVariable(names[k])
    ensures VariablesOf(names) == names
  {
    if names != [] {
      var init, last := names[..|names| - 1], names[|names| - 1];
      assert names == init + [last];
      PlainVariablesOf(init);
      PlainIsClean(last);
    }
  }

  /** The splitter inverts a conjunction of plain variables: it returns
      exactly the variables of `A AND B AND ...`, in order. */
  lemma ConjunctionRoundTrip(names: seq<string>)
    requires |names| >= 1 && forall k :: 0 <= k < |names| ==> PlainVariable(names[k])
    ensures ConditionVariables(Join(names, " AND ")) == names
  {
    SplitConjunction(names, "");
    assert "" + Join(names, " AND ") == Join(names, " AND ");
    PlainVariablesOf(names);
  }

  /** The splitter inverts a disjunction of two plain variables that do not
      hold `OR`: `A OR B` gives `[A, B]`. */
  lemma DisjunctionRoundTrip(a: string, b: string)
    requires PlainVariable(a) && PlainVariable(b) && !Contains(a, "OR") && !Contains(b, "OR")
    ensures ConditionVariables(a + " OR " + b) == [a, b]
  {
    var x := a + " OR " + b;
    DisjunctionNoAnd(a, b);
    DisjunctionTrimmed(a, b);
    StripPadded(x);
    AndFreeVariables(x);
    DisjunctionOrSplit(a, b);
    PlainPair(a, b);
  }

  /** A condition with no `AND` that needs no stripping is one AND part. */
  lemma AndFreeVariables(x: string)
    requires Split(x, "AND") == [x] && Strip(x) == x
    ensures ConditionVariables(x) == PartVariables(x)
  {
    assert StripAll([x]) == [x] by {
      assert StripAll([x])[0] == Strip(x);
    }
    assert VariablesOf([x]) == PartVariables(x) by {
      assert [x][..0] == [];
      assert VariablesOf([x]) == VariablesOf([]) + PartVariables(x);
    }
  }

  lemma DisjunctionNoAnd(a: string, b: string)
    requires PlainVariable(a) && PlainVariable(b)
    ensures Split(a + " OR " + b, "AND") == [a + " OR " + b]
  {
    var x := a + " OR " + b;
    assert x[..|a|] == a && x[|a| + 4..] == b;
    NotInside(x, a, 0, "AND");
    NotInside(x, b, |a| + 4, "AND");
    NotAcrossSpace(x, "AND", |a|);
    NotAcrossSpace(x, "AND", |a| + 3);
    assert forall i :: !OccursAt(x, "AND", i);
  }

  lemma DisjunctionTrimmed(a: string, b: string)
    requires PlainVariable(a) && PlainVariable(b)
    ensures Trimmed(a + " OR " + b)
  {
    PlainChars(a);
    PlainChars(b);
    var x := a + " OR " + b;
    assert x[0] == a[0] && x[|x| - 1] == b[|b| - 1];
  }

  /** `A OR B` holds ` OR ` and splits on `OR` into `A ` and ` B`. */
  lemma DisjunctionOrSplit(a: string, b: string)
    requires PlainVariable(a) && PlainVariable(b) && !Contains(a, "OR") && !Contains(b, "OR")
    ensures Contains(a + " OR " + b, " OR ")
    ensures Split(a + " OR " + b, "OR") == [a + " ", " " + b]
  {
    var x := a + " OR " + b;
    DisjunctionOrAt(a, b);
    assert x[..|a| + 1] == a + " " && x[|a| + 3..] == " " + b;
    SpacedNoOr(b);
  }

  /** The first `OR` of `A OR B` is the operator, and ` OR ` occurs. */
  lemma DisjunctionOrAt(a: string, b: string)
    requires PlainVariable(a) && PlainVariable(b) && !Contains(a, "OR")
    ensures Contains(a + " OR " + b, " OR ")
    ensures Find(a + " OR " + b, "OR") == |a| + 1
  {
    var x := a + " OR " + b;
    OperatorAt(a, b);
    OccursContains(x, " OR ", |a|);
    NoOrBefore(a, b);
    FindIs(x, "OR", |a| + 1);
  }

  /** ` OR ` sits right after `A` in `A OR B`. */
  lemma OperatorAt(a: string, b: string)
    ensures OccursAt(a + " OR " + b, " OR ", |a|) && OccursAt(a + " OR " + b, "OR", |a| + 1)
  {
    var x := a + " OR " + b;
    assert x[|a|..|a| + 4] == " OR ";
    assert x[|a| + 1..|a| + 3] == "OR";
  }

  /** No `OR` starts inside `A ` of `A OR B`. */
  lemma NoOrBefore(a: string, b: string)
    requires !Contains(a, "OR")
    ensures forall i :: 0 <= i < |a| + 1 ==> !OccursAt(a + " OR " + b, "OR", i)
  {
    var x := a + " OR " + b;
    assert x[..|a|] == a;
    NotInside(x, a, 0, "OR");
    NotAcrossSpace(x, "OR", |a|);
  }

  /** ` B` does not split on `OR`. */
  lemma SpacedNoOr(b: string)
    requires PlainVariable(b) && !Contains(b, "OR")
    ensures Split(" " + b, "OR") == [" " + b]
  {
    var tail := " " + b;
    assert tail[1..1 + |b|] == b;
    NotInside(tail, b, 1, "OR");
    NotAcrossSpace(tail, "OR", 0);
    assert forall i :: !OccursAt(tail, "OR", i);
  }

  /** The parts `A ` and ` B`, stripped and cleaned, are `A` and `B`. */
  lemma PlainPair(a: string, b: string)
    requires PlainVariable(a) && PlainVariable(b)
    ensures CleanedNames(StripAll([a + " ", " " + b])) == [a, b]
  {
    PlainChars(a);
    PlainChars(b);
    StripPair(a, b);
    CleanedPair(a, b);
  }

  lemma StripPair(a: string, b: string)
    requires Trimmed(a) && Trimmed(b)
    ensures StripAll([a + " ", " " + b]) == [a, b]
  {
    StripAllPair(a + " ", " " + b);
    StripPadded(a);
    StripPadded(b);
  }

  lemma StripAllPair(x: string, y: string)
    ensures StripAll([x, y]) == [Strip(x), Strip(y)]
  {
    assert [x, y][1..] == [y];
  }

  lemma CleanedPair(a: string, b: string)
    requires PlainVariable(a) && PlainVariable(b)
    ensures CleanedNames([a, b]) == [a, b]
  {
    assert [] + [a] == [a] && [a] + [b] == [a, b];
    CleanedSnocPlain([], a);
    CleanedSnocPlain([a], b);
  }

  lemma CleanedSnocPlain(parts: seq<string>, v: string)
    requires PlainVariable(v)
    ensures CleanedNames(parts + [v]) == CleanedNames(parts) + [v]
  {
    assert (parts + [v])[..|parts|] == parts;
    PlainCleanName(v);
  }
}
