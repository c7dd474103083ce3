# ST-ladder-translator core, modelled in Dafny

This project models the three pieces of the Structured Text (ST) to ladder
translator that contain exact rules.

- **The ladder view** (`LadderViewComponent.tsx`). It has two parts:
  - the drawing: grid, power rails, connections, the contact, coil and function glyphs, and the address labels. It is modelled as a pure function from rungs to a sequence of draw commands in diagram coordinates;
  - the viewport: the zoom, pan and "100%" buttons and the canvas drag. It is modelled as a class over exact reals.
- **The export panel** (`DownloadPanel.tsx`). It covers:
  - the GX Works text (`generateGXWFormat`);
  - the device list (`generateCSV`);
  - the report's element count;
  - the format dispatch of `handleDownload`.

  Each builder is a method with the source's loop. It is proved equal to a specification function, and the properties are proved about that function.
- **The conversion service** (`backend/main.py`).
  - `SimpleLadderConverter` is a class whose fields are the device counters and the variable map.
  - Its methods `convert`, `_parse_variable_declaration`, `_parse_if_statement` and `_parse_condition_variables` are loops. Each is proved to compute what a function of the converter's state says.
  - `convert_code` runs one conversion and sorts the variable map into the device map by address prefix.

Files:

| file | module | contents |
|---|---|---|
| `wrappers.dfy` | `Wrappers` | `Option` |
| `pystr.dfy` | `PyStr` | the Python/JavaScript string operations the code uses: `strip`, `rstrip`, `startswith`, `in`, `find`, `split`, `replace`, `str(n)` |
| `ladder.dfy` | `Ladder` | the diagram as the service returns it: element, rung, ladder data |
| `ladder_view.dfy` | `LadderView` | draw commands, grid, glyphs, rungs, the render effect's transform |
| `viewport.dfy` | `Viewport` | the viewport class: zoom, pan, reset, drag listeners |
| `download_panel.dfy` | `DownloadPanel` | GX Works text, device list, element count, downloads |
| `converter.dfy` | `Converter` | the converter as functions of its state, and what they keep |
| `converter_impl.dfy` | `ConverterImpl` | the converter class, `convert_code` and the device map split |

How the code differs from its own description:
- **Then-block scan.** `_parse_if_statement` collects the THEN block of the FIRST line of the program that starts with `IF`, whichever IF line it was called for. The model follows the code (`Converter.ThenBlockOfFirstIf`).
- **Coil value.** A coil's value is cut at colons, so it keeps the `=` of `:=` (`Converter.CoilDescriptionKeepsEquals`).
- **Normally-closed contact.** It is drawn as two slanted strokes plus the diagonal, not as a straight stroke with a diagonal.

## Model

| member | source | states |
|---|---|---|
| `LadderView.GridLines` | frontend/src/components/LadderViewComponent.tsx:61-78 | The grid is `width/20 + 1` full-height vertical lines at `x = 20k`, followed by `height/20 + 1` full-width horizontal lines at `y = 20k`. |
| `LadderView.DrawContact` | frontend/src/components/LadderViewComponent.tsx:139-161 | Only symbol strokes, touching both terminals `x ± 20`. A normally-open contact stays on the centre line with a gap from `x - 5` to `x + 5`. The diagonal `(x-8,y-8)-(x+8,y+8)` is present exactly when the contact is normally closed. |
| `LadderView.DrawCoil` | frontend/src/components/LadderViewComponent.tsx:163-177 | The only circle is the radius-10 circle at the centre. Every stroke is a 10-long horizontal stub from a terminal `x ± 20` to the circle. |
| `LadderView.DrawFunction` | frontend/src/components/LadderViewComponent.tsx:179-192 | A 60×40 box at the origin, and the caption at the box centre. Nothing else. |
| `LadderView.DrawElementShape` | frontend/src/components/LadderViewComponent.tsx:118-137 | A contact has the diagonal exactly when `isNormallyOpen` is `false`. A coil has its circle at `(x+30, y+20)`. A function has its box and its label, defaulting to `FUNC`. Any other type draws only the label. The label is drawn exactly when the address or the description is non-empty, at `(x+30, y+55)`, and reads the address or `''`. |
| `LadderView.ElementStrokes` | frontend/src/components/LadderViewComponent.tsx:118-199 | An element's drawing holds no rail stroke and no connection stroke. |
| `LadderView.OneRailPerRung` | frontend/src/components/LadderViewComponent.tsx:80-107 | Every rung gets exactly one power rail, in rung order, including a rung with no elements. Rung `i`'s rail runs at `x = 20` from `100i + 20` to `100i + 100`. |
| `LadderView.ConnectionsOfRung` | frontend/src/components/LadderViewComponent.tsx:86-95 | A rung of `n` elements draws `max(n - 1, 0)` connections. The `j`-th runs from `60j + 100` to `60j + 120` at the rung's `y + 20`. |
| `LadderView.ElementPlacement` | frontend/src/components/LadderViewComponent.tsx:82-89 | Element `j` of rung `i` is drawn as one contiguous run of commands, with box origin `(60j + 40, 100i + 20)`. |
| `LadderView.DrawingIgnoresPositions` | frontend/src/components/LadderViewComponent.tsx:86-89 | Rungs that differ only in their elements' own `x`/`y` draw identically. |
| `LadderView.ScaledApply` | frontend/src/components/LadderViewComponent.tsx:52 | `ctx.scale` makes the new transform scale a point before applying the old one. |
| `LadderView.TranslatedApply` | frontend/src/components/LadderViewComponent.tsx:53 | `ctx.translate` makes the new transform translate a point before applying the old one. |
| `LadderView.ViewTransformMaps` | frontend/src/components/LadderViewComponent.tsx:52-53 | Scale is applied before translate, so a diagram point `p` lands at `scale·(p + offset)`. |
| `LadderView.ScreenRoundTrip` | frontend/src/components/LadderViewComponent.tsx:52-53 | For any non-zero scale, the view transform is invertible in both directions. |
| `LadderView.Render` | frontend/src/components/LadderViewComponent.tsx:43-59 | A frame is drawn exactly when there is a diagram with at least one rung. Its transform is the scale-then-translate transform. |
| `LadderView.RenderedFrame` | frontend/src/components/LadderViewComponent.tsx:29-30 | A frame starts with the grid for the canvas size (800×600 by default) and holds exactly one rail per rung, in order. |
| `Viewport.ZoomedScale` | frontend/src/components/LadderViewComponent.tsx:201-203 | The result lies in [0.5, 3]. It is `s + 0.1·delta` when that is in range. Otherwise it saturates at the bound it passed; a zoom is never refused. |
| `Viewport.ZoomMonotone` | frontend/src/components/LadderViewComponent.tsx:201-203 | A larger delta never gives a smaller scale. |
| `Viewport.ZoomInOut` | frontend/src/components/LadderViewComponent.tsx:231-240 | Zooming out undoes zooming in below the upper bound. |
| `Viewport.ZoomSaturates` | frontend/src/components/LadderViewComponent.tsx:240 | Zooming in from within one step of 3 reaches 3 and stays there. |
| `Viewport.SingleDragPan` | frontend/src/components/LadderViewComponent.tsx:267-272 | With one drag, a move pans by the displacement from the mousedown point divided by the captured scale. |
| `Viewport.PanAtStart` | frontend/src/components/LadderViewComponent.tsx:267-272 | A move back to the mousedown point pans by nothing. |
| `Viewport.Viewport.constructor` | frontend/src/components/LadderViewComponent.tsx:33-34 | Scale starts at 1, the offset at (0, 0), and there is no drag. |
| `Viewport.Viewport.HandleZoom` | frontend/src/components/LadderViewComponent.tsx:201-203 | Scale becomes the clamped zoom and stays in [0.5, 3]. Offset and listeners do not change. |
| `Viewport.Viewport.HandlePan` | frontend/src/components/LadderViewComponent.tsx:205-207 | The offset moves by exactly `(dx, dy)`, with no bound. Scale does not change. |
| `Viewport.Viewport.ResetScale` | frontend/src/components/LadderViewComponent.tsx:248-254 | Scale becomes 1 and the offset is untouched. |
| `Viewport.Viewport.MouseDown` | frontend/src/components/LadderViewComponent.tsx:263-266 | Registers one listener pair that captures the start point and the current scale. |
| `Viewport.Viewport.MouseMove` | frontend/src/components/LadderViewComponent.tsx:267-272 | Each registered handler pans by its displacement from its own start over its own captured scale. The offset therefore grows by the cumulative displacement on every move. |
| `Viewport.Viewport.MouseUp` | frontend/src/components/LadderViewComponent.tsx:274-277 | Every listener pair is removed. Scale and offset do not change. |
| `Viewport.DragAtDoubleScale` | frontend/src/components/LadderViewComponent.tsx:263-281 | At scale 2, two moves to the same point pan twice the displacement over 2, and a move after release pans nothing. |
| `Viewport.ZoomPanReset` | frontend/src/components/LadderViewComponent.tsx:249 | Reset after a zoom and a pan gives scale 1 and keeps the pan. |
| `DownloadPanel.InstructionRoundTrip` | frontend/src/components/DownloadPanel.tsx:189-198 | Every instruction line reads back as the instruction it was written from. |
| `DownloadPanel.ElementInstruction` | frontend/src/components/DownloadPanel.tsx:184-200 | A contact writes `LD b<addr>` exactly when `isNormallyOpen` is `false`, and `LD a<addr>` otherwise. A coil writes `OUT <addr>`. A function writes the comment `; <label> <addr>`, with `FUNCTION` when the label is missing. Other types write nothing. A missing address becomes `''`. |
| `DownloadPanel.GxwText` | frontend/src/components/DownloadPanel.tsx:171-208 | The text is empty exactly when there is no diagram. |
| `DownloadPanel.EmitHeader` | frontend/src/components/DownloadPanel.tsx:175-178 | Writes the title, the timestamp line, a blank line and `*** MAIN ***`. |
| `DownloadPanel.EmitElement` | frontend/src/components/DownloadPanel.tsx:185-200 | Appends exactly the element's instruction line, if it has one. |
| `DownloadPanel.EmitRung` | frontend/src/components/DownloadPanel.tsx:181-204 | Appends the rung header, the element lines in order, and the footer. |
| `DownloadPanel.GenerateGXWFormat` | frontend/src/components/DownloadPanel.tsx:171-208 | The loop builds exactly the GX Works text. |
| `DownloadPanel.GxwStartsWithHeader` | frontend/src/components/DownloadPanel.tsx:172-178 | With a diagram, the text starts with the fixed header lines and `*** MAIN ***`. |
| `DownloadPanel.GxwRungMarkers` | frontend/src/components/DownloadPanel.tsx:180-205 | The `//` lines are exactly `// ラング k+1` followed by `// ラング終了`, once per rung `k`, in rung order. |
| `DownloadPanel.RungHeadersDistinct` | frontend/src/components/DownloadPanel.tsx:181 | Different rungs get different headers. |
| `DownloadPanel.CsvText` | frontend/src/components/DownloadPanel.tsx:16-48 | The list is empty exactly when there is no device map. |
| `DownloadPanel.AppendSection` | frontend/src/components/DownloadPanel.tsx:23-25 | Appends one `address,name,category` line per entry of the section, in order. |
| `DownloadPanel.GenerateCSV` | frontend/src/components/DownloadPanel.tsx:16-48 | The loops build exactly the device list: header, then inputs, outputs, internals, timers and counters. |
| `DownloadPanel.CsvRowCount` | frontend/src/components/DownloadPanel.tsx:20-45 | There is one header row plus one row per entry. Missing sections count as empty. |
| `DownloadPanel.RecordOfEntry` | frontend/src/components/DownloadPanel.tsx:23-45 | Entry `k` of section `t` is the row after all entries of earlier sections, and it carries that section's category. |
| `DownloadPanel.CsvRoundTrip` | frontend/src/components/DownloadPanel.tsx:16-48 | When names and addresses hold no comma or newline, the list parses back to exactly its records. |
| `DownloadPanel.TotalElementsCounts` | frontend/src/components/DownloadPanel.tsx:63 | The fold equals the number of elements of the flattened diagram. A missing element list counts 0. |
| `DownloadPanel.SumElementsAppend` | frontend/src/components/DownloadPanel.tsx:63 | The count is additive over a split of the rungs. |
| `DownloadPanel.DatePart` | frontend/src/components/DownloadPanel.tsx:140 | `slice(0, 10)` is the prefix of the first 10 characters, or the whole string when it is shorter. |
| `DownloadPanel.HandleDownload` | frontend/src/components/DownloadPanel.tsx:130-157 | There is a download exactly when a successful result is present. `csv` gives the device list, `report` gives the counts, and any other format gives the GX Works text. Each has its file name and MIME type. |
| `PyStr.Strip` | backend/main.py:76 | `strip()` returns one contiguous slice of the input. Everything cut off before and after it is whitespace, and the slice itself neither starts nor ends with whitespace. |
| `PyStr.StripIdempotent` | backend/main.py:122 | Stripping twice is stripping once. |
| `PyStr.Split` | backend/main.py:73 | `split` yields at least one piece, and two or more exactly when the separator occurs. |
| `PyStr.SplitJoin` | backend/main.py:73 | Joining the pieces gives back the string. |
| `PyStr.DecimalRoundTrip` | backend/main.py:100 | The numeral written into an address reads back as its number. |
| `Converter.Address` | backend/main.py:100-106 | An address is the prefix followed by the counter's decimal numeral. |
| `Converter.AddressInjective` | backend/main.py:100-106 | Different devices have different addresses. |
| `Converter.DeclarationPrefix` | backend/main.py:99-107 | The prefix is `X` exactly when the name starts with `X` or contains Input, Sensor or Button. Otherwise it is `Y` or `M`. |
| `Converter.OutputPrefix` | backend/main.py:170-175 | An assigned variable without an address becomes `Y` or `M`. |
| `Converter.Initial` | backend/main.py:42-51 | Six counters, all zero, and an empty map. |
| `Converter.Lookup` | backend/main.py:98 | A name is found exactly when it is mapped, and the device found is its entry. |
| `Converter.AssignKeeps` | backend/main.py:98-107 | A mapped name keeps its address and nothing changes. A new name takes `prefix + n` for the prefix's current count `n`; only that counter rises, by one; and no other name holds that device. The map stays consistent. |
| `Converter.LookupStable` | backend/main.py:167-168 | Once assigned, a variable reads the same in every later state. |
| `Converter.GrowsTransitive` | backend/main.py:99-107 | Counters never go down and entries are never removed, across any number of steps. |
| `Converter.ConditionVariables` | backend/main.py:212-234 | Every name returned is non-empty, free of parentheses and trimmed. |
| `Converter.PartVariables` | backend/main.py:221-232 | A part holding ` OR ` is split on `OR`; otherwise the part itself is cleaned. Only clean names are returned. |
| `Converter.CleanName` | backend/main.py:225 | The cleaned name has no parentheses and is trimmed. |
| `Converter.ConjunctionRoundTrip` | backend/main.py:217-232 | For plain variable names joined by ` AND `, the splitter returns exactly those names, in order. |
| `Converter.DisjunctionRoundTrip` | backend/main.py:221-227 | The splitter returns `[a, b]` for `a OR b`. |
| `Converter.PlainIsClean` | backend/main.py:230 | Cleaning leaves a plain variable unchanged. |
| `Converter.ThenBlock` | backend/main.py:118-150 | Every collected entry holds `:=`. |
| `Converter.ThenBlockOfFirstIf` | backend/main.py:121-136 | The THEN block is that of the first line starting with `IF`, whichever IF is parsed. It holds that line's assignments after `THEN`, then those of the lines after it. |
| `Converter.ScanStopsAtEnd` | backend/main.py:139-142 | Nothing after the first line starting with `END_IF`, `IF`, `ELSIF` or `ELSE` is collected. |
| `Converter.NoIfNoBlock` | backend/main.py:124-136 | Without a line starting with `IF`, the THEN block is empty. |
| `Converter.IfLineAssignments` | backend/main.py:127-134 | Only `:=` statements after `THEN` are taken, and none when what follows is empty or `END_IF`. |
| `Converter.BodyLineAssignments` | backend/main.py:143-150 | Empty lines, comments and lines without `:=` add nothing. |
| `Converter.RStripKeepsAssignment` | backend/main.py:134 | Stripping trailing `;` keeps the `:=`. |
| `Converter.IfStatementCount` | backend/main.py:111-113 | No match, or an empty block, gives no rungs and no state change. A match gives exactly one rung per entry of the THEN block. |
| `Converter.IfStatementRung` | backend/main.py:159-208 | Rung `k` holds one normally-open contact per condition variable, in order, at `x = 40 + 80i`, `y = 30`. Then exactly one coil follows at `x = 40 + 80·len(condition_vars)`, described as entry `k`'s assignment. |
| `Converter.ContactsShape` | backend/main.py:182-197 | Contacts are normally open, on the condition variables in order, 80 apart on `y = 30`. |
| `Converter.AssignmentRungShape` | backend/main.py:161-208 | One rung is the contacts followed by one coil. |
| `Converter.RungsFromShape` | backend/main.py:161-208 | The `k`-th rung is the one for the `k`-th assignment. |
| `Converter.RungsFrom` | backend/main.py:161-208 | There is one rung per assignment. |
| `Converter.CoilDescriptionKeepsEquals` | backend/main.py:163-203 | For `name := v`, the value is cut at the colon, so the coil reads `name := = v`. |
| `Converter.ContactsKeep` | backend/main.py:182-188 | Making contacts keeps the map consistent, and each contact carries its variable's address. |
| `Converter.AssignmentRungKeeps` | backend/main.py:167-206 | The same holds for a rung, including its coil. |
| `Converter.RungsFromKeep` | backend/main.py:161-208 | The same holds for all the rungs of a block. |
| `Converter.IfStatementKeeps` | backend/main.py:109-210 | An IF statement keeps the map consistent and accounts for every element it makes. |
| `Converter.DeclarationKeeps` | backend/main.py:92-107 | A declaration keeps the map consistent and only grows it. |
| `Converter.ConvertLineKeeps` | backend/main.py:76-88 | Each line of `convert` keeps the map consistent. |
| `Converter.ConversionKeeps` | backend/main.py:53-90 | After a conversion, no name or device appears twice. Every element carries the address the map gives its variable. |
| `ConverterImpl.Put` | backend/main.py:247 | Dictionary assignment: the new pair is present and other keys are kept. A new key is appended, and an existing key keeps the length. |
| `ConverterImpl.Filter` | backend/main.py:245-251 | The reference reading of a section: only entries whose device has the prefix. |
| `ConverterImpl.SectionIsFilter` | backend/main.py:245-251 | With distinct devices, the built section is the filtered map. |
| `ConverterImpl.FilterHolds` | backend/main.py:246-251 | An entry is in section `c` exactly when its prefix is `c`. |
| `ConverterImpl.DeviceMapSplit` | backend/main.py:245-251 | Every entry lands in exactly one of inputs, outputs and internals, the one its prefix names. The three sections together hold as many entries as the map. |
| `ConverterImpl.SectionPrefix` | backend/main.py:246-251 | Every address in section `c` starts with `c`. |
| `ConverterImpl.SimpleLadderConverter.constructor` | backend/main.py:41-51 | The state is the initial one and is consistent. |
| `ConverterImpl.SimpleLadderConverter.AddressOf` | backend/main.py:167-176 | The address and the new state are those `Assign` gives. |
| `ConverterImpl.SimpleLadderConverter.ParseVariableDeclaration` | backend/main.py:92-107 | The new state is the declaration's, and it stays consistent. |
| `ConverterImpl.SimpleLadderConverter.ParseConditionVariables` | backend/main.py:212-234 | The loops return exactly the condition's variables. |
| `ConverterImpl.SimpleLadderConverter.AddAllPartVariables` | backend/main.py:219-232 | The `and_parts` loop. |
| `ConverterImpl.SimpleLadderConverter.AddPartVariables` | backend/main.py:221-232 | The body of the `and_parts` loop. |
| `ConverterImpl.SimpleLadderConverter.AddCleanedNames` | backend/main.py:222-227 | The `or_parts` loop. |
| `ConverterImpl.SimpleLadderConverter.AppendAssignments` | backend/main.py:131-134 | Appends the `:=` statements, each with trailing `;` stripped. |
| `ConverterImpl.SimpleLadderConverter.ScanThenBlock` | backend/main.py:118-150 | The scan loop computes exactly the THEN block. |
| `ConverterImpl.SimpleLadderConverter.ScanLine` | backend/main.py:122-150 | One pass of the scan: what it appends and whether it stops. |
| `ConverterImpl.SimpleLadderConverter.AddContacts` | backend/main.py:182-197 | The contact loop gives the contacts and the state the specification gives. |
| `ConverterImpl.SimpleLadderConverter.AssignmentRungOf` | backend/main.py:162-208 | One entry's rung and the new state. |
| `ConverterImpl.SimpleLadderConverter.BuildRungs` | backend/main.py:159-210 | The rung loop gives one rung per entry. |
| `ConverterImpl.SimpleLadderConverter.ParseIfStatement` | backend/main.py:109-210 | The rungs and the new state match the IF rule, and the map stays consistent. |
| `ConverterImpl.SimpleLadderConverter.ConvertOneLine` | backend/main.py:76-88 | One line of `convert`. |
| `ConverterImpl.SimpleLadderConverter.ConvertLines` | backend/main.py:75-88 | The line loop. |
| `ConverterImpl.SimpleLadderConverter.Convert` | backend/main.py:53-90 | It resets, then returns the conversion's rungs with the metadata, and five empty sections. The map stays consistent and accounts for every element. |
| `ConverterImpl.ConvertTwice` | backend/main.py:54-55 | Two conversions of the same program by one converter give the same rungs. |
| `ConverterImpl.ConvertCode` | backend/main.py:236-262 | The result is successful. It holds the conversion's diagram, and the device map sorted by address prefix with empty timers and counters. |

## Left out

- The two regular expressions (`(\w+)\s*:\s*BOOL` and `IF\s+(.+?)\s+THEN`, case-insensitive) are not modelled.
  - They are parameters of type `Matcher`: a function returning the captured group or nothing.
  - What is proved holds for any matcher.
- Clocks are parameters: the service's `generated_at`, the GX Works header's locale timestamp and the file names' ISO date.
- Floating-point arithmetic is not modelled. Scale and offset are exact reals, so the drift of repeated `0.1` zoom steps is not captured.
- Canvas styling is not modelled: colours, line widths, fonts, text alignment, `fillRect` versus `strokeRect`, `clearRect`/`save`/`restore`. Each stroke is an abstract segment, circle, box or text record, with a pen telling grid, rail, wire and symbol strokes apart.
- React is not modelled as such: effect scheduling, re-rendering and the global `document` listeners. The drag is the list of registered listener pairs, each holding its start point and the scale it captured.
- The report (`generateReport`) is modelled only as its rung count and its `totalElements` fold. The rest of its text uses locale timestamps and `toFixed` formatting.
- The download itself is not modelled: the Blob, BOM, object URL and anchor click.
- The web service is not modelled: FastAPI routes, CORS, request decoding and `processing_time`.
  - `ConvertCode` covers only the success path. No step of the modelled conversion raises: every entry holds `:=`, so `split(':')[1]` exists. The `except` branch is therefore not modelled.
- `ConverterImpl.SimpleLadderConverter.Convert` returns the sections as empty lists, as `convert` does; `convert_code` fills them.
  - The `D`, `T` and `C` counters exist but are never used.
  - The timers and counters sections stay empty.
- `Converter.ConditionVariables` does not claim that names are free of `NOT`. A single `replace('NOT', '')` can leave a `NOT` behind: `NNOTOT` becomes `NOT`.
- `PyStr.Strip` is Python's `strip()` restricted to ASCII whitespace: U+0009 to U+000D, U+001C to U+001F and the space. Python also strips non-ASCII whitespace (U+0085, U+00A0, U+2000 to U+200A, U+2028, U+2029, U+3000 and the rest of what `str.isspace` accepts); the model keeps those characters.
- `DownloadPanel.CsvRoundTrip` is stated only for names and addresses without commas or newlines. The list does no quoting, so other names do not read back.
- `frontend/src/App.tsx`, `ResultPanel.tsx`, `ConversionControlPanel.tsx` and `FileUploadComponent.tsx` are not part of this model. They are page layout, forms and the request to the service.
