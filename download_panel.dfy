/** The export panel (DownloadPanel.tsx): the GX Works text the panel writes
    for a diagram, the CSV device list it writes for a device map, the element
    count of its report, and the dispatch of a download request.

    Both builders append to a string inside loops; they are methods proved
    against the functions `GxwText` and `CsvText`, which the lemmas below
    characterise by a parser each. The clock is a parameter: `localeNow` is
    what `new Date().toLocaleString('ja-JP')` returned and `isoNow` what
    `new Date().toISOString()` returned. */
module DownloadPanel {
  import opened Wrappers
  import opened PyStr
  import opened Ladder

  /** A device-map section (`{ address: name }`), as its entries in
      `Object.entries` order; a missing section is `None`. */
  type Section = Option<seq<(string, string)>>

  datatype DeviceMap = DeviceMap(
    inputs: Section,
    outputs: Section,
    internals: Section,
    timers: Section,
    counters: Section)

  /** The part of the conversion service's reply the panel reads. */
  datatype ConversionResult = ConversionResult(
    success: bool,
    ladderData: Option<LadderData>,
    deviceMap: Option<DeviceMap>)

  // ------------------------------------------------------------------ GXW

  const GXW_TITLE: string := "; GX Works 2 形式ラダープログラム"
  const MAIN_MARKER: string := "*** MAIN ***"
  const RUNG_END: string := "// ラング終了"

  /** The comment opening rung `k` (0-based): `// ラング k+1`. */
  function RungHeader(k: nat): string {
    "// ラング " + Decimal(k + 1)
  }

  /** The lines before the first rung. */
  function HeaderLines(localeNow: string): seq<string> {
    [GXW_TITLE, "; 生成日時: " + localeNow, "", MAIN_MARKER]
  }

  /** One GX Works instruction: a contact load (`a` = normally open, `b` =
      normally closed), an output, or a comment line. */
  datatype Instruction =
    | Load(normallyClosed: bool, address: string)
    | Out(address: string)
    | Comment(text: string)

  function FormatInstruction(i: Instruction): string {
    match i
    case Load(nc, a) => "LD " + (if nc then "b" else "a") + a
    case Out(a) => "OUT " + a
    case Comment(t) => "; " + t
  }

  /** Reads an instruction line back. */
  function ParseInstruction(s: string): Option<Instruction> {
    if StartsWith(s, "LD a") then Some(Load(false, s[4..]))
    else if StartsWith(s, "LD b") then Some(Load(true, s[4..]))
    else if StartsWith(s, "OUT ") then Some(Out(s[4..]))
    else if StartsWith(s, "; ") then Some(Comment(s[2..]))
    else None
  }

  /** Every instruction line reads back as the instruction it was written
      from. */
  lemma InstructionRoundTrip(i: Instruction)
    ensures ParseInstruction(FormatInstruction(i)) == Some(i)
  {
    var s := FormatInstruction(i);
    match i
    case Load(nc, a) =>
      assert s[..4] == "LD " + (if nc then "b" else "a") && s[4..] == a;
      assert s[3] == (if nc then 'b' else 'a');
      if nc {
        assert !StartsWith(s, "LD a") by {
          assert "LD a"[3] == 'a';
        }
      }
    case Out(a) =>
      assert s[..4] == "OUT " && s[4..] == a;
      assert s[0] == 'O';
    case Comment(t) =>
      assert s[..2] == "; " && s[2..] == t;
      assert s[0] == ';';
  }

  /** The instruction `generateGXWFormat` writes for an element, if any: the
      address defaults to the empty string and a function's label to
      'FUNCTION'; an element of another type writes nothing. */
  function InstructionOf(e: Element): Option<Instruction> {
    var address := OrElse(e.address, "");
    match e.kind
    case Contact => Some(Load(IsNormallyClosed(e), address))
    case Coil => Some(Out(address))
    case Function => Some(Comment(OrElse(e.labelText, "FUNCTION") + " " + address))
    case Other(_) => None
  }

  /** What an element's GX Works line says, read back with the parser: a
      contact is `LD b` exactly when `isNormallyOpen` is `false` and `LD a`
      otherwise, a coil is `OUT`, a function is a comment holding its label
      (`FUNCTION` when it has none) and its address, and an element of another
      type has no line. */
  lemma ElementInstruction(e: Element)
    ensures InstructionOf(e).None? <==> e.kind.Other?
    ensures InstructionOf(e).Some? ==>
      var i := InstructionOf(e).value;
      ParseInstruction(FormatInstruction(i)) == Some(i)
      && (e.kind.Contact? ==> i == Load(e.isNormallyOpen == Some(false), OrElse(e.address, "")))
      && (e.kind.Coil? ==> i == Out(OrElse(e.address, "")))
      && (e.kind.Function? ==> i == Comment(OrElse(e.labelText, "FUNCTION") + " " + OrElse(e.address, "")))
  {
    if InstructionOf(e).Some? {
      InstructionRoundTrip(InstructionOf(e).value);
    }
  }

  /** The line an element contributes: none for an unknown type. */
  function ElementLines(e: Element): seq<string> {
    if InstructionOf(e).Some? then [FormatInstruction(InstructionOf(e).value)] else []
  }

  /** The instruction lines of a rung's elements, in element order. */
  function InstructionLines(elements: seq<Element>): seq<string> {
    if elements == [] then []
    else InstructionLines(elements[..|elements| - 1]) + ElementLines(elements[|elements| - 1])
  }

  /** The lines of rung `k`: a blank line, its header, its instructions, its
      footer. */
  function RungLines(r: Rung, k: nat): seq<string> {
    ["", RungHeader(k)] + InstructionLines(ElementsOf(r)) + [RUNG_END]
  }

  function AllRungLines(rungs: seq<Rung>): seq<string> {
    if rungs == [] then []
    else AllRungLines(rungs[..|rungs| - 1]) + RungLines(rungs[|rungs| - 1], |rungs| - 1)
  }

  function GxwLines(ladder: LadderData, localeNow: string): seq<string> {
    HeaderLines(localeNow) + AllRungLines(ladder.rungs)
  }

  /** `generateGXWFormat`: empty without a diagram, otherwise every line of
      `GxwLines` followed by a newline. */
  function GxwText(result: ConversionResult, localeNow: string): (r: string)
    ensures r == "" <==> result.ladderData.None?
  {
    if result.ladderData.None? then "" else Unlines(GxwLines(result.ladderData.value, localeNow))
  }

  /** Regrouping an appended line. */
  lemma Regroup(g: string, a: string, b: string, c: string)
    ensures g + a + b + c + "\n" == g + (a + b + c) + "\n"
    ensures g + a + b + c == g + (a + b + c)
  {
  }

  /** The title, timestamp, blank and `*** MAIN ***` lines. */
  method EmitHeader(localeNow: string) returns (gxw: string)
    ensures gxw == Unlines(HeaderLines(localeNow))
  {
    var header := HeaderLines(localeNow);
    var stamp := "; 生成日時: " + localeNow;
    gxw := GXW_TITLE + "\n";
    UnlinesSnoc([], GXW_TITLE);
    assert [] + [GXW_TITLE] == [GXW_TITLE] && Unlines([]) + GXW_TITLE == GXW_TITLE;
    assert gxw == Unlines([GXW_TITLE]);
    var g1 := gxw;
    gxw := gxw + "; 生成日時: " + localeNow + "\n\n";
    UnlinesSnoc([GXW_TITLE], stamp);
    UnlinesSnoc([GXW_TITLE, stamp], "");
    assert [GXW_TITLE] + [stamp] == [GXW_TITLE, stamp];
    assert [GXW_TITLE, stamp] + [""] == header[..3];
    assert gxw == g1 + stamp + "\n" + "" + "\n";
    assert gxw == Unlines(header[..3]);
    gxw := gxw + MAIN_MARKER + "\n";
    UnlinesSnoc(header[..3], MAIN_MARKER);
    assert header[..3] + [MAIN_MARKER] == header;
  }

  /** The `switch (element.type)` of `generateGXWFormat`: appends the
      element's instruction line, if it has one. */
  method EmitElement(gxw: string, ghost lines: seq<string>, e: Element) returns (out: string)
    requires gxw == Unlines(lines)
    ensures out == Unlines(lines + ElementLines(e))
  {
    var address := OrElse(e.address, "");
    match e.kind {
      case Contact =>
        var contactSymbol := if IsNormallyClosed(e) then "b" else "a";
        out := gxw + "LD " + contactSymbol + address + "\n";
        Regroup(gxw, "LD ", contactSymbol, address);
        UnlinesSnoc(lines, "LD " + contactSymbol + address);
      case Coil =>
        out := gxw + "OUT " + address + "\n";
        assert gxw + "OUT " + address + "\n" == gxw + ("OUT " + address) + "\n";
        UnlinesSnoc(lines, "OUT " + address);
      case Function =>
        var caption := OrElse(e.labelText, "FUNCTION");
        out := gxw + "; " + caption + " " + address + "\n";
        Regroup(gxw, "; ", caption, " " + address);
        assert "; " + caption + (" " + address) == "; " + (caption + " " + address);
        UnlinesSnoc(lines, "; " + (caption + " " + address));
      case Other(_) =>
        out := gxw;
        assert lines + [] == lines;
    }
  }

  lemma OpenRung(gxw: string, lines: seq<string>, k: nat)
    requires gxw == Unlines(lines)
    ensures gxw + "\n" + RungHeader(k) + "\n" == Unlines(lines + ["", RungHeader(k)])
  {
    UnlinesSnoc(lines, "");
    UnlinesSnoc(lines + [""], RungHeader(k));
    assert lines + [""] + [RungHeader(k)] == lines + ["", RungHeader(k)];
    assert gxw + "" == gxw;
  }

  lemma InstructionLinesSnoc(headed: seq<string>, elements: seq<Element>, m: nat)
    requires m < |elements|
    ensures headed + InstructionLines(elements[..m]) + ElementLines(elements[m])
         == headed + InstructionLines(elements[..m + 1])
  {
    assert elements[..m + 1][..m] == elements[..m];
  }

  lemma CloseRung(gxw: string, lines: seq<string>, r: Rung, k: nat)
    requires gxw == Unlines(lines + ["", RungHeader(k)] + InstructionLines(ElementsOf(r)))
    ensures gxw + RUNG_END + "\n" == Unlines(lines + RungLines(r, k))
  {
    var headed := lines + ["", RungHeader(k)];
    UnlinesSnoc(headed + InstructionLines(ElementsOf(r)), RUNG_END);
    assert headed + InstructionLines(ElementsOf(r)) + [RUNG_END] == lines + RungLines(r, k);
  }

  /** One rung of `generateGXWFormat`: its header, its elements' lines, its
      footer. */
  method EmitRung(gxw: string, ghost lines: seq<string>, r: Rung, k: nat) returns (out: string)
    requires gxw == Unlines(lines)
    ensures out == Unlines(lines + RungLines(r, k))
  {
    OpenRung(gxw, lines, k);
    out := gxw + "\n" + RungHeader(k) + "\n";
    ghost var headed := lines + ["", RungHeader(k)];
    if r.elements.Some? {
      var elements := r.elements.value;
      var m := 0;
      assert headed + InstructionLines(elements[..0]) == headed by {
        assert elements[..0] == [];
      }
      while m < |elements|
        invariant 0 <= m <= |elements|
        invariant out == Unlines(headed + InstructionLines(elements[..m]))
      {
        InstructionLinesSnoc(headed, elements, m);
        out := EmitElement(out, headed + InstructionLines(elements[..m]), elements[m]);
        m := m + 1;
      }
      assert elements[..m] == elements;
    } else {
      assert headed + InstructionLines(ElementsOf(r)) == headed;
    }
    CloseRung(out, lines, r, k);
    out := out + RUNG_END + "\n";
  }

  lemma AllRungLinesSnoc(header: seq<string>, rungs: seq<Rung>, k: nat)
    requires k < |rungs|
    ensures header + AllRungLines(rungs[..k]) + RungLines(rungs[k], k) == header + AllRungLines(rungs[..k + 1])
  {
    assert rungs[..k + 1][..k] == rungs[..k];
  }

  /** `generateGXWFormat`, appending to `gxw` rung by rung. */
  method GenerateGXWFormat(result: ConversionResult, localeNow: string) returns (gxw: string)
    ensures gxw == GxwText(result, localeNow)
  {
    if result.ladderData.None? {
      return "";
    }
    var rungs := result.ladderData.value.rungs;
    gxw := EmitHeader(localeNow);
    ghost var header := HeaderLines(localeNow);
    assert header + AllRungLines(rungs[..0]) == header by {
      assert rungs[..0] == [];
    }
    var k := 0;
    while k < |rungs|
      invariant 0 <= k <= |rungs|
      invariant gxw == Unlines(header + AllRungLines(rungs[..k]))
    {
      AllRungLinesSnoc(header, rungs, k);
      gxw := EmitRung(gxw, header + AllRungLines(rungs[..k]), rungs[k], k);
      k := k + 1;
    }
    assert rungs[..k] == rungs;
  }

  /** The GX Works text starts with the title, the timestamp line, a blank
      line and `*** MAIN ***`. */
  lemma GxwStartsWithHeader(result: ConversionResult, localeNow: string)
    requires result.ladderData.Some?
    ensures StartsWith(GxwText(result, localeNow), Unlines(HeaderLines(localeNow)))
  {
    var ladder := result.ladderData.value;
    UnlinesAppend(HeaderLines(localeNow), AllRungLines(ladder.rungs));
  }

  /** The lines that are `//` comments. */
  function Markers(lines: seq<string>): seq<string> {
    if lines == [] then []
    else Markers(lines[..|lines| - 1]) + (if StartsWith(lines[|lines| - 1], "//") then [lines[|lines| - 1]] else [])
  }

  lemma {:induction false} MarkersAppend(a: seq<string>, b: seq<string>)
    ensures Markers(a + b) == Markers(a) + Markers(b)
    decreases |b|
  {
    if b == [] {
      assert a + b == a;
    } else {
      MarkersAppend(a, b[..|b| - 1]);
      assert (a + b)[..|a + b| - 1] == a + b[..|b| - 1];
    }
  }

  lemma MarkersSingle(l: string)
    ensures Markers([l]) == if StartsWith(l, "//") then [l] else []
  {
    assert [l][..0] == [];
  }

  /** The rung comments of an `n`-rung program in order: header of rung 0,
      footer, header of rung 1, footer, ... */
  function ExpectedMarkers(n: nat): (r: seq<string>)
    ensures |r| == 2 * n
    ensures forall k :: 0 <= k < n ==> r[2 * k] == RungHeader(k) && r[2 * k + 1] == RUNG_END
  {
    if n == 0 then [] else ExpectedMarkers(n - 1) + [RungHeader(n - 1), RUNG_END]
  }

  lemma {:induction false} InstructionsAreNotMarkers(elements: seq<Element>)
    ensures Markers(InstructionLines(elements)) == []
  {
    if elements != [] {
      var last := elements[|elements| - 1];
      InstructionsAreNotMarkers(elements[..|elements| - 1]);
      MarkersAppend(InstructionLines(elements[..|elements| - 1]), ElementLines(last));
      if InstructionOf(last).Some? {
        var s := FormatInstruction(InstructionOf(last).value);
        assert s[0] != '/';
        MarkersSingle(s);
      }
    }
  }

  lemma NotMarker(l: string)
    requires l == [] || l[0] != '/'
    ensures Markers([l]) == []
  {
    MarkersSingle(l);
  }

  lemma IsMarker(l: string)
    requires |l| >= 2 && l[0] == '/' && l[1] == '/'
    ensures Markers([l]) == [l]
  {
    MarkersSingle(l);
    assert l[..2] == "//";
  }

  lemma RungLinesMarkers(r: Rung, k: nat)
    ensures Markers(RungLines(r, k)) == [RungHeader(k), RUNG_END]
  {
    var ins := InstructionLines(ElementsOf(r));
    var h := RungHeader(k);
    InstructionsAreNotMarkers(ElementsOf(r));
    MarkersAppend(["", h] + ins, [RUNG_END]);
    MarkersAppend(["", h], ins);
    MarkersAppend([""], [h]);
    assert [""] + [h] == ["", h];
    NotMarker("");
    assert h[0] == '/' && h[1] == '/';
    IsMarker(h);
    assert RUNG_END[0] == '/' && RUNG_END[1] == '/';
    IsMarker(RUNG_END);
  }

  lemma {:induction false} RungMarkers(rungs: seq<Rung>)
    ensures Markers(AllRungLines(rungs)) == ExpectedMarkers(|rungs|)
  {
    if rungs != [] {
      var k := |rungs| - 1;
      RungMarkers(rungs[..k]);
      RungLinesMarkers(rungs[k], k);
      MarkersAppend(AllRungLines(rungs[..k]), RungLines(rungs[k], k));
    }
  }

  lemma HeaderHasNoMarkers(localeNow: string)
    ensures Markers(HeaderLines(localeNow)) == []
  {
    var t, st, m := GXW_TITLE, "; 生成日時: " + localeNow, MAIN_MARKER;
    assert HeaderLines(localeNow) == [t, st, "", m];
    MarkersAppend([t, st, ""], [m]);
    MarkersAppend([t, st], [""]);
    MarkersAppend([t], [st]);
    assert [t, st, ""] + [m] == [t, st, "", m];
    assert [t, st] + [""] == [t, st, ""];
    assert [t] + [st] == [t, st];
    assert t[0] == ';';
    NotMarker(t);
    assert st[0] == ';';
    NotMarker(st);
    NotMarker("");
    assert m[0] == '*';
    NotMarker(m);
  }

  /** Each rung `k` of the diagram contributes exactly one `// ラング k+1`
      header and one `// ラング終了` footer, in rung order: the `//` lines of
      the program are exactly header 0, footer, header 1, footer, ... */
  lemma GxwRungMarkers(ladder: LadderData, localeNow: string)
    ensures Markers(GxwLines(ladder, localeNow)) == ExpectedMarkers(|ladder.rungs|)
  {
    HeaderHasNoMarkers(localeNow);
    RungMarkers(ladder.rungs);
    MarkersAppend(HeaderLines(localeNow), AllRungLines(ladder.rungs));
  }

  /** The rung headers name distinct rung numbers. */
  lemma RungHeadersDistinct(k: nat, k': nat)
    requires RungHeader(k) == RungHeader(k')
    ensures k == k'
  {
    var p := "// ラング ";
    assert RungHeader(k)[|p|..] == Decimal(k + 1);
    assert RungHeader(k')[|p|..] == Decimal(k' + 1);
    DecimalInjective(k + 1, k' + 1);
  }

  // ------------------------------------------------------------------ CSV

  const CSV_HEADER: string := "デバイスアドレス,変数名,種類"

  /** One row of the device list. */
  datatype CsvRecord = CsvRecord(address: string, name: string, category: string)

  /** The sections of a device map in the order the list writes them, and the
      category each one's rows carry. */
  function Sections(dm: DeviceMap): (r: seq<seq<(string, string)>>)
    ensures |r| == 5
  {
    [dm.inputs.GetOr([]), dm.outputs.GetOr([]), dm.internals.GetOr([]),
     dm.timers.GetOr([]), dm.counters.GetOr([])]
  }

  const CATEGORIES: seq<string> := ["入力", "出力", "内部", "タイマー", "カウンター"]

  /** The records of one section, all with the section's category. */
  function Tag(entries: seq<(string, string)>, category: string): (r: seq<CsvRecord>)
    ensures |r| == |entries|
    ensures forall k :: 0 <= k < |r| ==> r[k] == CsvRecord(entries[k].0, entries[k].1, category)
  {
    if entries == [] then []
    else
      var last := entries[|entries| - 1];
      Tag(entries[..|entries| - 1], category) + [CsvRecord(last.0, last.1, category)]
  }

  /** The records of sections `s..4`. */
  function RecordsFrom(dm: DeviceMap, s: nat): seq<CsvRecord>
    requires s <= 5
    decreases 5 - s
  {
    if s == 5 then [] else Tag(Sections(dm)[s], CATEGORIES[s]) + RecordsFrom(dm, s + 1)
  }

  function Records(dm: DeviceMap): seq<CsvRecord> {
    RecordsFrom(dm, 0)
  }

  /** The number of entries in sections `s..4`. */
  function EntriesFrom(dm: DeviceMap, s: nat): nat
    requires s <= 5
    decreases 5 - s
  {
    if s == 5 then 0 else |Sections(dm)[s]| + EntriesFrom(dm, s + 1)
  }

  /** The number of entries before section `s`. */
  function Offset(dm: DeviceMap, s: nat): nat
    requires s <= 5
  {
    if s == 0 then 0 else Offset(dm, s - 1) + |Sections(dm)[s - 1]|
  }

  function FormatRecord(r: CsvRecord): string {
    r.address + "," + r.name + "," + r.category
  }

  function FormatRecords(rs: seq<CsvRecord>): (lines: seq<string>)
    ensures |lines| == |rs|
  {
    if rs == [] then [] else FormatRecords(rs[..|rs| - 1]) + [FormatRecord(rs[|rs| - 1])]
  }

  lemma {:induction false} FormatRecordsAppend(a: seq<CsvRecord>, b: seq<CsvRecord>)
    ensures FormatRecords(a + b) == FormatRecords(a) + FormatRecords(b)
    decreases |b|
  {
    if b == [] {
      assert a + b == a;
    } else {
      FormatRecordsAppend(a, b[..|b| - 1]);
      assert (a + b)[..|a + b| - 1] == a + b[..|b| - 1];
    }
  }

  /** `generateCSV`: empty without a device map, otherwise the header line and
      one line per record. */
  function CsvText(result: ConversionResult): (r: string)
    ensures r == "" <==> result.deviceMap.None?
  {
    if result.deviceMap.None? then ""
    else Unlines([CSV_HEADER] + FormatRecords(Records(result.deviceMap.value)))
  }

  /** One `Object.entries(section).forEach` of `generateCSV`. */
  method AppendSection(csv: string, entries: seq<(string, string)>, category: string) returns (out: string)
    ensures out == csv + Unlines(FormatRecords(Tag(entries, category)))
  {
    out := csv;
    var k := 0;
    while k < |entries|
      invariant 0 <= k <= |entries|
      invariant out == csv + Unlines(FormatRecords(Tag(entries[..k], category)))
    {
      var address, name := entries[k].0, entries[k].1;
      var line := address + "," + name + "," + category + "\n";
      SectionStep(entries, category, k);
      Concat3(csv, Unlines(FormatRecords(Tag(entries[..k], category))), line);
      out := out + line;
      k := k + 1;
    }
    assert entries[..k] == entries;
  }

  /** The text of `entries[..k + 1]` is that of `entries[..k]` and one more
      line. */
  lemma SectionStep(entries: seq<(string, string)>, category: string, k: nat)
    requires k < |entries|
    ensures Unlines(FormatRecords(Tag(entries[..k + 1], category)))
         == Unlines(FormatRecords(Tag(entries[..k], category))) + (entries[k].0 + "," + entries[k].1 + "," + category + "\n")
  {
    var rec := CsvRecord(entries[k].0, entries[k].1, category);
    var before := Tag(entries[..k], category);
    assert entries[..k + 1][..k] == entries[..k];
    assert Tag(entries[..k + 1], category) == before + [rec];
    assert (before + [rec])[..|before|] == before;
    assert FormatRecords(before + [rec]) == FormatRecords(before) + [FormatRecord(rec)];
    UnlinesSnoc(FormatRecords(before), FormatRecord(rec));
    Concat3(Unlines(FormatRecords(before)), FormatRecord(rec), "\n");
  }

  /** The text of section `s` of the list. */
  function SectionText(dm: DeviceMap, s: nat): string
    requires s < 5
  {
    Unlines(FormatRecords(Tag(Sections(dm)[s], CATEGORIES[s])))
  }

  /** The text of sections `s..4`. */
  function TextFrom(dm: DeviceMap, s: nat): string
    requires s <= 5
  {
    Unlines(FormatRecords(RecordsFrom(dm, s)))
  }

  lemma TextFromStep(csv: string, dm: DeviceMap, s: nat)
    requires s < 5
    ensures csv + SectionText(dm, s) + TextFrom(dm, s + 1) == csv + TextFrom(dm, s)
  {
    var t := Tag(Sections(dm)[s], CATEGORIES[s]);
    var rest := RecordsFrom(dm, s + 1);
    assert RecordsFrom(dm, s) == t + rest;
    FormatRecordsAppend(t, rest);
    UnlinesAppend(FormatRecords(t), FormatRecords(rest));
    Concat3(csv, SectionText(dm, s), TextFrom(dm, s + 1));
  }

  lemma Concat3(a: string, b: string, c: string)
    ensures a + b + c == a + (b + c)
  {
  }

  /** `generateCSV`: the header, then the inputs, outputs, internals, timers
      and counters sections in turn, a missing section adding nothing. */
  method GenerateCSV(result: ConversionResult) returns (csv: string)
    ensures csv == CsvText(result)
  {
    if result.deviceMap.None? {
      return "";
    }
    var dm := result.deviceMap.value;
    ghost var target := CsvText(result);
    csv := CSV_HEADER + "\n";
    assert csv + TextFrom(dm, 0) == target by { CsvStart(result); }
    ghost var prev := csv;
    csv := AppendSection(csv, dm.inputs.GetOr([]), "入力");
    assert csv + TextFrom(dm, 1) == target by { TextFromStep(prev, dm, 0); }
    prev := csv;
    csv := AppendSection(csv, dm.outputs.GetOr([]), "出力");
    assert csv + TextFrom(dm, 2) == target by { TextFromStep(prev, dm, 1); }
    prev := csv;
    csv := AppendSection(csv, dm.internals.GetOr([]), "内部");
    assert csv + TextFrom(dm, 3) == target by { TextFromStep(prev, dm, 2); }
    prev := csv;
    csv := AppendSection(csv, dm.timers.GetOr([]), "タイマー");
    assert csv + TextFrom(dm, 4) == target by { TextFromStep(prev, dm, 3); }
    prev := csv;
    csv := AppendSection(csv, dm.counters.GetOr([]), "カウンター");
    assert csv + TextFrom(dm, 5) == target by { TextFromStep(prev, dm, 4); }
    assert csv + TextFrom(dm, 5) == csv by { assert TextFrom(dm, 5) == ""; }
  }

  /** The list starts with the header line, then the text of every section. */
  lemma CsvStart(result: ConversionResult)
    requires result.deviceMap.Some?
    ensures CSV_HEADER + "\n" + TextFrom(result.deviceMap.value, 0) == CsvText(result)
  {
    var dm := result.deviceMap.value;
    UnlinesAppend([CSV_HEADER], FormatRecords(Records(dm)));
    UnlinesSnoc([], CSV_HEADER);
    assert [] + [CSV_HEADER] == [CSV_HEADER];
  }

  lemma {:induction false} RecordsFromCount(dm: DeviceMap, s: nat)
    requires s <= 5
    ensures |RecordsFrom(dm, s)| == EntriesFrom(dm, s)
    decreases 5 - s
  {
    if s < 5 {
      RecordsFromCount(dm, s + 1);
    }
  }

  /** The device list has one header row and one row per entry of the map,
      missing sections counting as empty. */
  lemma CsvRowCount(dm: DeviceMap)
    ensures |[CSV_HEADER] + FormatRecords(Records(dm))|
         == 1 + |dm.inputs.GetOr([])| + |dm.outputs.GetOr([])| + |dm.internals.GetOr([])|
              + |dm.timers.GetOr([])| + |dm.counters.GetOr([])|
  {
    RecordsFromCount(dm, 0);
  }

  lemma {:induction false} RecordsFromAt(dm: DeviceMap, s: nat, t: nat, k: nat)
    requires s <= t < 5 && k < |Sections(dm)[t]|
    ensures 0 <= Offset(dm, t) - Offset(dm, s) + k < |RecordsFrom(dm, s)|
    ensures RecordsFrom(dm, s)[Offset(dm, t) - Offset(dm, s) + k]
         == CsvRecord(Sections(dm)[t][k].0, Sections(dm)[t][k].1, CATEGORIES[t])
    decreases t - s
  {
    if s < t {
      RecordsFromAt(dm, s + 1, t, k);
      RecordShift(dm, s, t, k);
    } else {
      IndexBefore(Tag(Sections(dm)[s], CATEGORIES[s]), RecordsFrom(dm, s + 1), k);
    }
  }

  /** Moving the start one section back moves every later record by that
      section's length. */
  lemma RecordShift(dm: DeviceMap, s: nat, t: nat, k: nat)
    requires s < t < 5 && k < |Sections(dm)[t]|
    requires 0 <= Offset(dm, t) - Offset(dm, s + 1) + k < |RecordsFrom(dm, s + 1)|
    ensures 0 <= Offset(dm, t) - Offset(dm, s) + k < |RecordsFrom(dm, s)|
    ensures RecordsFrom(dm, s)[Offset(dm, t) - Offset(dm, s) + k]
         == RecordsFrom(dm, s + 1)[Offset(dm, t) - Offset(dm, s + 1) + k]
  {
    var head := Tag(Sections(dm)[s], CATEGORIES[s]);
    var i := Offset(dm, t) - Offset(dm, s + 1) + k;
    assert Offset(dm, s + 1) == Offset(dm, s) + |Sections(dm)[s]|;
    IndexAfter(head, RecordsFrom(dm, s + 1), i);
  }

  lemma IndexAfter<T>(a: seq<T>, b: seq<T>, i: nat)
    requires i < |b|
    ensures |a| + i < |a + b| && (a + b)[|a| + i] == b[i]
  {
  }

  lemma IndexBefore<T>(a: seq<T>, b: seq<T>, i: nat)
    requires i < |a|
    ensures (a + b)[i] == a[i]
  {
  }

  /** Entry `k` of section `t` (inputs, outputs, internals, timers, counters)
      is the record after all entries of the earlier sections, and carries
      that section's category. */
  lemma RecordOfEntry(dm: DeviceMap, t: nat, k: nat)
    requires t < 5 && k < |Sections(dm)[t]|
    ensures Offset(dm, t) + k < |Records(dm)|
    ensures Records(dm)[Offset(dm, t) + k] == CsvRecord(Sections(dm)[t][k].0, Sections(dm)[t][k].1, CATEGORIES[t])
  {
    RecordsFromAt(dm, 0, t, k);
  }

  /** Reads one device-list row back into its three fields. */
  function ParseRecord(line: string): Option<CsvRecord> {
    var f := Split(line, ",");
    if |f| == 3 then Some(CsvRecord(f[0], f[1], f[2])) else None
  }

  function ParseRecords(lines: seq<string>): Option<seq<CsvRecord>> {
    if lines == [] then Some([])
    else
      var init := ParseRecords(lines[..|lines| - 1]);
      var last := ParseRecord(lines[|lines| - 1]);
      if init.Some? && last.Some? then Some(init.value + [last.value]) else None
  }

  /** Reads a device list back: the header line, the rows, and nothing after
      the final newline. */
  function ParseCsv(text: string): Option<seq<CsvRecord>> {
    var lines := Split(text, "\n");
    if |lines| < 2 || lines[0] != CSV_HEADER || lines[|lines| - 1] != "" then None
    else ParseRecords(lines[1..|lines| - 1])
  }

  /** A field the list can hold without quoting. */
  predicate PlainField(s: string) {
    ',' !in s && '\n' !in s
  }

  predicate PlainRecord(r: CsvRecord) {
    PlainField(r.address) && PlainField(r.name) && PlainField(r.category)
  }

  lemma RecordRoundTrip(r: CsvRecord)
    requires PlainRecord(r)
    ensures ParseRecord(FormatRecord(r)) == Some(r)
    ensures NoNewline(FormatRecord(r))
  {
    var line := FormatRecord(r);
    assert line == r.address + [','] + r.name + [','] + r.category;
    SplitThree(r.address, r.name, r.category, ',');
  }

  lemma {:induction false} RecordsRoundTrip(rs: seq<CsvRecord>)
    requires forall k :: 0 <= k < |rs| ==> PlainRecord(rs[k])
    ensures ParseRecords(FormatRecords(rs)) == Some(rs)
    ensures forall k :: 0 <= k < |rs| ==> NoNewline(FormatRecords(rs)[k])
  {
    if rs != [] {
      var init, last := rs[..|rs| - 1], rs[|rs| - 1];
      RecordsRoundTrip(init);
      RecordRoundTrip(last);
      var lines := FormatRecords(rs);
      assert lines == FormatRecords(init) + [FormatRecord(last)];
      ParseRecordsSnoc(FormatRecords(init), FormatRecord(last), init, last);
      InitLast(rs);
      forall k | 0 <= k < |rs| ensures NoNewline(lines[k]) {
        if k < |init| {
          assert lines[k] == FormatRecords(init)[k];
        }
      }
    }
  }

  lemma InitLast<T>(s: seq<T>)
    requires s != []
    ensures s[..|s| - 1] + [s[|s| - 1]] == s
  {
  }

  lemma ParseRecordsSnoc(init: seq<string>, line: string, rs: seq<CsvRecord>, r: CsvRecord)
    requires ParseRecords(init) == Some(rs) && ParseRecord(line) == Some(r)
    ensures ParseRecords(init + [line]) == Some(rs + [r])
  {
    assert (init + [line])[..|init|] == init;
  }

  /** Every entry of every present section is a plain address and name. */
  predicate PlainDeviceMap(dm: DeviceMap) {
    forall s, k :: 0 <= s < 5 && 0 <= k < |Sections(dm)[s]| ==>
      PlainField(Sections(dm)[s][k].0) && PlainField(Sections(dm)[s][k].1)
  }

  lemma {:induction false} PlainRecordsFrom(dm: DeviceMap, s: nat)
    requires s <= 5 && PlainDeviceMap(dm)
    ensures forall k :: 0 <= k < |RecordsFrom(dm, s)| ==> PlainRecord(RecordsFrom(dm, s)[k])
    decreases 5 - s
  {
    if s < 5 {
      PlainRecordsFrom(dm, s + 1);
      var t := Tag(Sections(dm)[s], CATEGORIES[s]);
      var rest := RecordsFrom(dm, s + 1);
      forall k | 0 <= k < |t + rest| ensures PlainRecord((t + rest)[k]) {
        if k < |t| {
          assert PlainField(Sections(dm)[s][k].0) && PlainField(Sections(dm)[s][k].1);
          assert PlainField(CATEGORIES[s]);
        } else {
          assert (t + rest)[k] == rest[k - |t|];
        }
      }
    }
  }

  /** No line of the list, header included, holds a newline. */
  lemma CsvLinesPlain(rs: seq<CsvRecord>)
    requires forall k :: 0 <= k < |rs| ==> PlainRecord(rs[k])
    ensures var lines := [CSV_HEADER] + FormatRecords(rs);
      forall k :: 0 <= k < |lines| ==> NoNewline(lines[k])
  {
    var lines := [CSV_HEADER] + FormatRecords(rs);
    HeaderPlain();
    RecordsRoundTrip(rs);
    forall k | 0 <= k < |lines| ensures NoNewline(lines[k]) {
      if k > 0 {
        assert lines[k] == FormatRecords(rs)[k - 1];
      }
    }
  }

  lemma HeaderPlain()
    ensures NoNewline(CSV_HEADER)
  {
    assert forall i :: 0 <= i < |CSV_HEADER| ==> CSV_HEADER[i] != '\n';
  }

  lemma ParseCsvLines(rs: seq<CsvRecord>)
    requires forall k :: 0 <= k < |rs| ==> PlainRecord(rs[k])
    ensures ParseCsv(Unlines([CSV_HEADER] + FormatRecords(rs))) == Some(rs)
  {
    var lines := [CSV_HEADER] + FormatRecords(rs);
    CsvLinesPlain(rs);
    RecordsRoundTrip(rs);
    SplitUnlines(lines);
    var pieces := lines + [""];
    assert pieces[0] == CSV_HEADER && pieces[|pieces| - 1] == "";
    assert pieces[1..|pieces| - 1] == FormatRecords(rs);
  }

  /** The device list of a map whose addresses and names hold no comma or
      newline reads back as exactly its records: every entry once, in section
      order, with its section's category. */
  lemma CsvRoundTrip(result: ConversionResult)
    requires result.deviceMap.Some? && PlainDeviceMap(result.deviceMap.value)
    ensures ParseCsv(CsvText(result)) == Some(Records(result.deviceMap.value))
  {
    PlainRecordsFrom(result.deviceMap.value, 0);
    ParseCsvLines(Records(result.deviceMap.value));
  }

  // --------------------------------------------------------------- report

  /** The element count of a rung, a missing element list counting 0. */
  function RungSize(r: Rung): nat {
    |ElementsOf(r)|
  }

  /** `rungs.reduce((sum, rung) => sum + (rung.elements?.length || 0), 0)`:
      a left fold. */
  function SumElements(rungs: seq<Rung>): nat {
    if rungs == [] then 0 else SumElements(rungs[..|rungs| - 1]) + RungSize(rungs[|rungs| - 1])
  }

  /** The report's `totalElements`: 0 without a diagram. */
  function TotalElements(ladder: Option<LadderData>): nat {
    if ladder.None? then 0 else SumElements(ladder.value.rungs)
  }

  /** All elements of all rungs, in order. */
  function AllElements(rungs: seq<Rung>): seq<Element> {
    if rungs == [] then [] else ElementsOf(rungs[0]) + AllElements(rungs[1..])
  }

  lemma {:induction false} AllElementsSnoc(rungs: seq<Rung>, r: Rung)
    ensures AllElements(rungs + [r]) == AllElements(rungs) + ElementsOf(r)
  {
    if rungs == [] {
      assert [r][1..] == [];
      assert rungs + [r] == [r];
    } else {
      AllElementsSnoc(rungs[1..], r);
      assert (rungs + [r])[1..] == rungs[1..] + [r];
    }
  }

  /** The count is the number of elements of the flattened diagram. */
  lemma {:induction false} TotalElementsCounts(rungs: seq<Rung>)
    ensures SumElements(rungs) == |AllElements(rungs)|
  {
    if rungs != [] {
      var init := rungs[..|rungs| - 1];
      TotalElementsCounts(init);
      AllElementsSnoc(init, rungs[|rungs| - 1]);
      assert init + [rungs[|rungs| - 1]] == rungs;
    }
  }

  /** Counting is additive over a split of the rung list. */
  lemma {:induction false} SumElementsAppend(a: seq<Rung>, b: seq<Rung>)
    ensures SumElements(a + b) == SumElements(a) + SumElements(b)
    decreases |b|
  {
    if b == [] {
      assert a + b == a;
    } else {
      SumElementsAppend(a, b[..|b| - 1]);
      assert (a + b)[..|a + b| - 1] == a + b[..|b| - 1];
    }
  }

  // ------------------------------------------------------------- download

  /** What a download carries: a text file, or the report, of which only its
      rung and element totals are modelled. */
  datatype Payload = TextFile(text: string) | ReportFile(totalRungs: nat, totalElements: nat)

  datatype Download = Download(payload: Payload, filename: string, mimeType: string)

  /** `toISOString().slice(0, 10)`. */
  function DatePart(isoNow: string): (r: string)
    ensures |r| <= 10 && StartsWith(isoNow, r)
    ensures |r| == if |isoNow| < 10 then |isoNow| else 10
  {
    if |isoNow| <= 10 then isoNow else isoNow[..10]
  }

  /** `handleDownload(format)`: nothing unless a result is present and
      successful; `csv` gives the device list, `report` the report, and every
      other format string the GX Works text. */
  method HandleDownload(result: Option<ConversionResult>, format: string, isoNow: string, localeNow: string)
    returns (d: Option<Download>)
    ensures d.Some? <==> result.Some? && result.value.success
    ensures d.Some? && format == "csv" ==>
      d.value == Download(TextFile(CsvText(result.value)), "device_list_" + DatePart(isoNow) + ".csv", "text/csv;charset=utf-8;")
    ensures d.Some? && format == "report" ==>
      var ladder := result.value.ladderData;
      d.value == Download(ReportFile(if ladder.Some? then |ladder.value.rungs| else 0, TotalElements(ladder)),
                          "conversion_report_" + DatePart(isoNow) + ".txt", "text/plain;charset=utf-8;")
    ensures d.Some? && format != "csv" && format != "report" ==>
      d.value == Download(TextFile(GxwText(result.value, localeNow)), "ladder_program_" + DatePart(isoNow) + ".gxw", "text/plain;charset=utf-8;")
  {
    if result.None? || !result.value.success {
      return None;
    }
    var r := result.value;
    if format == "csv" {
      var content := GenerateCSV(r);
      d := Some(Download(TextFile(content), "device_list_" + DatePart(isoNow) + ".csv", "text/csv;charset=utf-8;"));
    } else if format == "report" {
      var rungs := if r.ladderData.Some? then |r.ladderData.value.rungs| else 0;
      d := Some(Download(ReportFile(rungs, TotalElements(r.ladderData)),
                         "conversion_report_" + DatePart(isoNow) + ".txt", "text/plain;charset=utf-8;"));
    } else {
      var content := GenerateGXWFormat(r, localeNow);
      d := Some(Download(TextFile(content), "ladder_program_" + DatePart(isoNow) + ".gxw", "text/plain;charset=utf-8;"));
    }
  }
}
