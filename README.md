# QStyler core: the QSS reader, the selector store and the selector pickers

QStyler is a desktop tool for composing Qt Style Sheets (QSS). The user picks
a widget, an optional sub-control and an optional state. The tool composes a
selector from those picks and edits that selector's properties in a table.
Every edit goes into an in-memory store of one-selector rows, and the store
serialises itself to QSS text that is applied to the application. A theme can
be loaded back from a `.qss` file through a small line-based reader.

This Dafny project models that core and proves properties of it:

- **`Text`** (`text.dfy`): the Python `str` operations the code relies on.
  These are `strip()` with Python's whitespace set, `split(sep)`, `sep.join`,
  `"".join`, `startswith`, `endswith`, `index` and the substring test `a in b`.
- **`OrderedMaps`** (`ordered_maps.dfy`): a Python `dict` as its items in
  insertion order. `d[k] = v` keeps an existing key in place and appends a
  new one.
- **`Qss`** (`qss.dfy`): `QssParser` from QStyler/utils.py. It has two layers:
  - the reader's behaviour as functions, one per loop of `parse()`: `Scan`,
    `Comment`, `Header` and `Body`, plus `sanatize_prop` as `SanatizeProp`;
  - the class `QssParser`, with its line cursor and result list. Each of its
    methods is proved against those functions.
- **`Rendering`** (`rendering.dfy`): the serialiser that the three stores
  share. It proves the round trip: the text of well-formed rows reads back as
  exactly those rows.
- **`Sheets`** (`sheets.dfy`): the selector store. The source has three
  copies: `StyleManager`, `StyleFactory` and `StyleSheetFactory`.
  - The store's behaviour is given as functions: `Upsert` and `Lookup`.
  - The class `SheetStore` runs the for/else upsert, the nested serialising
    loops and the lookup loop, each proved against those functions.
  - A `guarded` flag tells the copies apart. `StyleSheetFactory` has no
    empty-selector guard in `get_sheet`.
- **`Target`** (`target.dfy`): how the pickers compose the selector
  (`emitChanges`), what the table reads it back as (`getWidgetState`), and the
  two copies of `saveProp`. Only the styler.py copy refuses an empty or "-"
  property.
- **`Combos`** (`combos.dfy`): the pickers' validators (`WidgetValidator` with
  `test_match`, `PropsValidator`) and how `loadControls`/`loadStates` refill
  the control and state pickers from the last word of the selector.
- **`Actions`** (`actions.dfy`): `getThemeFile`, which folds the reader's rows
  into one selector → properties dict. The last row of a selector wins whole.
- **`Morph`** (`morph.py` as `morph.dfy`): the data-reshaping script.
  - `get_data` filters rows for a widget.
  - `compile` builds one entry per widget row and adds that row's own
    controls without duplicates.

Behaviour of the reader that the proofs make explicit:

- A comment runs from a line starting with `/*` to the first line ending with
  `*/`. A comment that never closes makes `self.current` index past the end.
  The model reports that IndexError as the failure `UnterminatedComment`.
- A rule block is emitted only when some line follows its closing `}` line.
  So a file whose last line is `}` with no final newline loses its last block
  (`Rendering.NoFinalNewline`).
- `if not self.nextline` at the end of the block loop tests the bound method,
  which is always true. It never returns, and the model treats it as the
  no-op it is.

## Model

| member | source | states |
|---|---|---|
| Qss.SanatizeProp | QStyler/utils.py:245-254 | `sanatize_prop` yields nothing for a line without ':', and a name it yields holds no ':' (it is the text before the first one). |
| Qss.SanatizePropCases | QStyler/utils.py:245-254 | A line yields nothing when its stripped text has no ':' or nothing after the first ':'. Otherwise it yields the stripped text before the first ':' as the name, and as the value the stripped text after that ':' with one trailing ';' removed; later colons stay in the value. |
| Qss.SanatizeRendered | QStyler/utils.py:245-254 | A line `"    name: value;"`, with a stripped name that has no ':' and a stripped value, reads back as `(name, value)`. |
| Qss.AddPropGet | QStyler/utils.py:229-233 | After a line is read into a block's map, the name it sets has its value and every other name keeps its old value. |
| Qss.CollectAbsent | QStyler/utils.py:229-235 | A name that none of the following lines sets keeps the value it had. |
| Qss.CollectLastWins | QStyler/utils.py:229-235 | A property name repeated in one block keeps the value of its last line. |
| Qss.Expand | QStyler/utils.py:238-240 | A block gives exactly one row per comma-separated piece of its header text, each with the block's map and a selector holding no ','. |
| Qss.Scan | QStyler/utils.py:210-220 | The outer loop of `parse()` (comment, empty line or header at each line) only ever adds rows whose selector holds no ','. |
| Qss.Comment | QStyler/utils.py:191-200 | Skipping a comment and scanning on only ever adds rows whose selector holds no ','. |
| Qss.Header | QStyler/utils.py:221-228 | Reading header lines up to the '{' line and scanning on only ever adds rows whose selector holds no ','. |
| Qss.Body | QStyler/utils.py:229-242 | Reading property lines up to the '}' line, emitting the block and scanning on only ever adds rows whose selector holds no ','. |
| Qss.ParseQss | QStyler/utils.py:181-243 | Every row the reader returns names a single selector: no selector holds ','. |
| Qss.ScanExtends | QStyler/utils.py:210-243 | The scan only appends to the rows gathered so far. Whether it fails does not depend on them. |
| Qss.ScanBlankLines | QStyler/utils.py:212-220 | Empty lines, or no lines at all, add no rows and do not fail. |
| Qss.ParseEmptyText | QStyler/utils.py:184-189 | Empty text reads as no rows. |
| Qss.CommentRuns | QStyler/utils.py:191-195 | A comment is skipped through the first line from its start that ends with `*/`, that line included, and scanning resumes on the next line. |
| Qss.CommentUnclosed | QStyler/utils.py:191-200 | A comment with no closing line makes the read fail: `self.current` indexes past the last line. |
| Qss.CommentSkipped | QStyler/utils.py:214-216 | A line starting with `/*` either skips to after the first closing line or makes the read fail when there is none. |
| Qss.HeaderRuns | QStyler/utils.py:221-225 | Header lines are gathered up to the first line holding '{'. That line contributes its text before '{', and properties are read from the next line. |
| Qss.HeaderUnclosed | QStyler/utils.py:221-224 | With no '{' line left, the read ends with the rows gathered so far. |
| Qss.BodyWalk | QStyler/utils.py:229-235 | Every line before the first '}' line is read with `sanatize_prop` into the block's map, in order. |
| Qss.BodyUnclosed | QStyler/utils.py:229-235 | With no '}' line left, the block is dropped and the read ends with the rows gathered so far. |
| Qss.PropsRun | QStyler/utils.py:229-235 | Reading property lines keeps the map's names distinct, never moves backwards, and when it reports a closing line, that line exists and holds '}'. |
| Qss.BodyRun | QStyler/utils.py:229-242 | The block rule is the property loop followed by closing the block where it stopped; with no '}' line it ends with the rows gathered so far. |
| Qss.BlockRead | QStyler/utils.py:221-242 | A block with header lines up to line h and properties up to its '}' line c gives one row per stripped ','-piece of the joined header, each with the map of its property lines. The rows are emitted, and the scan goes on, only when a line follows c. |
| Qss.QssParser.constructor | QStyler/utils.py:181-189 | The parser splits the text on "\n" and parses it. Its result is the reader's result, and it raises exactly when that read fails. |
| Qss.QssParser.NextLine | QStyler/utils.py:202-207 | The cursor advances by one, and the answer says whether a line is left. |
| Qss.QssParser.SkipComments | QStyler/utils.py:191-195 | The cursor moves past the first line ending in `*/`, or the call reports the IndexError, exactly as the comment rule says. |
| Qss.QssParser.ReadHeader | QStyler/utils.py:221-225 | The header loop agrees with the header rule: it stops on the '{' line with the gathered widgets, or at the end of input. |
| Qss.QssParser.ReadProps | QStyler/utils.py:226-235 | The property loop ends exactly as `PropsRun` from the cursor's line says: whether a '}' line was found, the map read so far, and the line where it stopped, which holds '}' when one was found. |
| Qss.QssParser.AppendRows | QStyler/utils.py:238-240 | The result grows by exactly the rows of the split header, each with the block's map. |
| Qss.QssParser.ReadBlock | QStyler/utils.py:221-242 | One pass of the block loop agrees with the header rule from the cursor's line. |
| Qss.QssParser.Parse | QStyler/utils.py:210-243 | `parse()` succeeds exactly when the scan from the cursor does, and then its result is the scan's result. |
| Rendering.Render | QStyler/utils.py:127-134 | The serialised text is empty exactly when there are no rows, and otherwise ends with a newline. |
| Rendering.RenderSplit | QStyler/utils.py:127-134 | The text of well-formed rows is, line by line, each row's selector line, its property lines and a closing line, then a final empty line. |
| Rendering.RoundTrip | QStyler/utils.py:127-134 | The QSS text of well-formed rows reads back through the parser as exactly those rows. |
| Rendering.NoFinalNewline | QStyler/utils.py:236-237 | The same text without its final newline reads back as every row but the last. |
| Sheets.FirstIndex | QStyler/utils.py:110-113 | The position found is the first row keyed by the selector. None means no row has it. |
| Sheets.Lookup | QStyler/utils.py:159-163 | `get_sheet` gives the first matching row's map, or `{}` when no row matches or, in the guarded copies, when the selector is empty. |
| Sheets.Upsert | QStyler/utils.py:110-115 | `addSheet` sets the property in the first row of the selector, or appends one new row when there is none. No other row changes, and the list grows by at most one. |
| Sheets.UpsertThenGet | QStyler/utils.py:110-163 | After `addSheet(s, p, v)`, `get_sheet(s)` maps p to v, unless the guard answers `{}` for an empty s. |
| Sheets.UpsertOtherSelector | QStyler/utils.py:110-163 | `addSheet` on one selector leaves `get_sheet` of every other selector unchanged. |
| Sheets.UpsertOtherProp | QStyler/utils.py:110-163 | `addSheet(s, p, v)` leaves every other property of s unchanged. |
| Sheets.UpsertTwice | QStyler/utils.py:110-115 | Repeating the same `addSheet` call changes nothing more. |
| Sheets.GuardOnlyEmpty | QStyler/tab2.py:42-46 | The unguarded `get_sheet` of tab2.py differs from the guarded ones only on the empty selector. |
| Sheets.UpsertWellFormed | QStyler/utils.py:110-115 | `addSheet` with a selector, property and value the reader accepts keeps every row well formed. |
| Sheets.AppliedTextReadsBack | QStyler/utils.py:110-139 | The text applied after `addSheet` reads back as exactly the store's new rows. |
| Sheets.SheetStore.constructor | QStyler/tab2.py:18-20 | A new store has no rows. |
| Sheets.SheetStore.AddSheet | QStyler/styler.py:86-92 | The for/else loop leaves the rows equal to the upsert of the old rows. The applied text is the serialisation of the new rows. |
| Sheets.SheetStore.UpdateStyleSheet | QStyler/styler.py:103-111 | The nested loops build the serialisation of the rows. |
| Sheets.SheetStore.GetSheet | QStyler/styler.py:127-131 | The lookup loop returns `get_sheet`'s answer for the store's rows and guard. |
| Target.Chosen | QStyler/styler.py:445 | The filtered picks have no "-" and are no more than the picks. |
| Target.ChosenParts | QStyler/styler.py:445 | Joining the picks that are not "-" equals joining every pick with "-" read as nothing. |
| Target.TargetSelector | QStyler/styler.py:445-446 | The composed selector is never empty. |
| Target.TargetParts | QStyler/tab2.py:294-295 | The selector is the widget, control and state parts in that order, with "-" left out. When that leaves nothing it is "*". |
| Target.WidgetState | QStyler/styler.py:459-460 | The state read back is the line edit's text, or "*" when that is empty, so it is never empty. |
| Target.Saved | QStyler/styler.py:228-239 | Saving a value adds at most one row and leaves every row of another selector as it was. |
| Target.StateAfterEmit | QStyler/styler.py:445-460 | After `emitChanges`, `getWidgetState` reads back exactly the composed selector. |
| Target.SavedNoPlaceholders | QStyler/styler.py:233-238 | The styler.py table never stores an empty or "-" property name. |
| Target.UncheckedStoresPlaceholder | QStyler/tab2.py:122-125 | The tab2.py table stores a "-" property like any other, and it can be read back. |
| Target.SavedThenCurrent | QStyler/styler.py:233-238 | A value the table stores can be read back under the title it was saved for, with either store's guard. |
| Target.SaveProp | QStyler/styler.py:228-239 | Editing a value cell leaves the store's rows as the saved rows: with the styler.py guard, a placeholder property changes nothing. |
| Combos.MatchOf | QStyler/combos.py:203-206 | One item judges the text: Exact exactly when the item equals it, Partial exactly when the item is longer and contains it. |
| Combos.FirstMatch | QStyler/combos.py:200-207 | `test_match` is NoMatch exactly when no item matches. Otherwise it is the verdict of the first item that is the text or strictly contains it. |
| Combos.FirstMatchMeaning | QStyler/combos.py:200-207 | An accepted text is listed, and a partial one is part of a longer item. A listed text that no longer item contains is accepted. |
| Combos.TestMatch | QStyler/combos.py:200-207 | The loop with early returns gives `test_match`'s verdict. |
| Combos.WordRun | QStyler/combos.py:175-176 | The run of word characters a text starts with: all word characters, followed by a non-word character or the end. |
| Combos.WidgetVerdict | QStyler/combos.py:195-231 | The widget validator accepts only a listed text, or an "A B" text whose first two space-separated words are both listed. |
| Combos.WidgetValidate | QStyler/combos.py:195-231 | `validate` gives the widget verdict. It emits `inputAccepted` exactly when the verdict is Acceptable. |
| Combos.TwoWords | QStyler/combos.py:209-219 | "A B" with a listed first word A is judged by `test_match` on B. |
| Combos.WordThenSpace | QStyler/combos.py:220-224 | "A " is Intermediate when A is listed and Invalid otherwise. |
| Combos.OneWord | QStyler/combos.py:225-231 | A lone word is judged by `test_match` on the whole text. |
| Combos.TabRaises | QStyler/combos.py:209-212 | "A\tB", when listed, matches `pat2` but splits into one piece on spaces, so `widgets[1]` raises. |
| Combos.RaisesOnlyWithoutSpace | QStyler/combos.py:209-212 | The validator raises only for a listed text that matches `pat2` and has no space. |
| Combos.PropsVerdict | QStyler/combos.py:248-260 | The property validator answers Invalid exactly when the text is non-empty and occurs in no listed property name. |
| Combos.PropsValidate | QStyler/combos.py:248-260 | The loop with its `inter` flag gives Acceptable for "" or a listed name wherever it appears in the list. It gives Intermediate for a part of a longer name, and Invalid otherwise. |
| Combos.PropsInvalidStays | QStyler/combos.py:248-260 | Typing more after an Invalid property text never makes it Acceptable or Intermediate. |
| Combos.LastToken | QStyler/combos.py:122-126 | The looked-up widget has no space, and it is the whole text when the text has none. |
| Combos.LastTokenAfterSpace | QStyler/combos.py:122-126 | The widget looked up for "A B" is B. |
| Combos.ItemsFollowLastWord | QStyler/combos.py:151-160 | The control and state pickers list the same items for "A B" as for "B". |
| Combos.ControlItems | QStyler/combos.py:117-129 | The control list starts with ""; for a one-word selector the rest is that word's controls, or nothing when it has no entry. |
| Combos.StateItems | QStyler/combos.py:146-160 | The state list exists exactly when there is a "*" entry (otherwise KeyError), and it starts with "" followed by the states of "*". |
| Combos.StatesCommonFirst | QStyler/combos.py:148-160 | Every selector's state list starts with the same items, "" and the states of "*"; after them come exactly the states listed for the selector's last word, or nothing when it has no entry. |
| Combos.ItemCombo.RemoveAll | QStyler/combos.py:119-120 | Removing item 0 as many times as there are items empties the list. |
| Combos.ItemCombo.LoadControls | QStyler/combos.py:117-129 | The control picker is refilled with "" and then the controls of the selector's last word. |
| Combos.ItemCombo.LoadStates | QStyler/combos.py:146-160 | The state picker is refilled as the state rule says. Without a "*" entry it raises KeyError with only "" listed. |
| Actions.Collapse | QStyler/actions.py:108-111 | The `final.update(row)` fold has at most one key per row. |
| Actions.CollapseKeys | QStyler/actions.py:108-111 | The collapsed dict has one key per selector of the parsed rows, and no key twice. |
| Actions.CollapseLastWins | QStyler/actions.py:110-111 | A selector's value is the whole map of its last row: maps of repeated selectors are replaced, not merged. |
| Actions.CollapseAbsent | QStyler/actions.py:108-111 | A selector that no row has is not in the dict. |
| Actions.ThemeFileMeaning | QStyler/actions.py:104-112 | Nothing is parsed unless both path and title are non-empty. A loaded theme carries the title unchanged and one key per selector of the file. |
| Actions.ThemeFile | QStyler/actions.py:104-112 | A loaded theme carries the title it was given, and none of its keys holds ','. |
| Actions.LoadRendered | QStyler/actions.py:104-112 | A file written from well-formed rows loads as the collapse of those rows. |
| Actions.GetThemeFile | QStyler/actions.py:104-112 | Parsing followed by the `final.update(row)` loop gives the theme-file outcome. |
| Morph.DataFor | morph.py:11-21 | `get_data` lists at most one prop and one control per row. |
| Morph.DataForAppend | morph.py:11-21 | `get_data` reads rows in order: the lists for a + b are those for a followed by those for b. |
| Morph.DataForOne | morph.py:14-20 | One row contributes its "prop" when its "options" hold the widget, and its "control" when its "widgets" hold it. |
| Morph.DataForDefined | morph.py:14-20 | `get_data` raises KeyError exactly when some row has "prop" without "options" or "control" without "widgets". |
| Morph.DataForProps | morph.py:15-17 | The props are exactly the "prop" values of the rows whose "options" hold the widget. |
| Morph.DataForControls | morph.py:18-20 | The controls are exactly the "control" values of the rows whose "widgets" hold the widget. |
| Morph.GetData | morph.py:11-21 | The appending loop gives `get_data`'s lists, or raises where it does. |
| Morph.Merged | morph.py:29-31 | The merge is never shorter than the controls it starts from and adds at most one item per item of the row's "controls". |
| Morph.MergedMeaning | morph.py:29-31 | The merge keeps `get_data`'s controls as a prefix. It adds exactly the items without "Customizing" that are not already there, and never adds one twice. |
| Morph.MergeControls | morph.py:29-31 | The in-place appending loop gives the merge. |
| Morph.CompileRowsStuck | morph.py:23-33 | Once `compile` raises on a row, the whole call raises. |
| Morph.Compiled | morph.py:23-33 | `compile` gives at most one entry per row. |
| Morph.CompiledShape | morph.py:23-33 | `compile` gives one entry per row with "name", keyed by its first name, in row order. Entry i holds `get_data`'s props for that widget and `get_data`'s controls merged with the "controls" of the i-th named row. |
| Morph.CompiledControls | morph.py:23-33 | The controls of each entry start with `get_data`'s controls and add exactly the named row's items without "Customizing" that are new; they hold no repeats when `get_data`'s controls hold none. |
| Morph.NoNamesNoEntries | morph.py:25-26 | Rows without "name" give no entries. |
| Morph.Compile | morph.py:23-33 | The loop gives `compile`'s entries, or raises where it does. |
| OrderedMaps.PutGet | QStyler/utils.py:112 | After `d[k] = v`, k maps to v and every other key keeps its value. |
| OrderedMaps.PutShape | QStyler/utils.py:112 | Assignment keeps every key where it was and adds a new key at the end. |
| OrderedMaps.PutTwice | QStyler/utils.py:112 | Assigning the same value twice equals assigning it once. |

## Left out

- Qt user interface: widgets, layouts, tables, tabs, dialogs, menus, signal and slot wiring, and the `blockSignals` decorator.
- `app.setStyleSheet`: `addSheet` and `update_styleSheet` return the text they would apply instead.
- The `inputAccepted` signal is modelled only as a flag saying whether it was emitted.
- File and JSON input and output: the parser and `getThemeFile` take the file's text as a parameter, and `saveToFile` is not modelled. `ThemeLoadDialog`'s file picker and morph.py's module-level load, dump and `print` are not modelled either. The pickers' `info` tables are parameters.
- `WidgetValidator.fixup` and `PropsValidator.fixup`: the first reads an attribute that does not exist, and both can loop forever.
- `Lorem`: demo filler text from an endless generator.
- The property column of `saveProp` (`updateProp`): it only redraws the table.
- Aliasing: `get_sheet` returns the store's own dict, which callers could mutate. The model's rows are values, so changes through that reference are not modelled, and neither is the `deepcopy` that gives each header piece its own map.
- Rows hold one selector each, as every row the source builds does. A row dict with several keys is not modelled.
- `parse()` returns `None` instead of its result after a trailing empty line. Callers read `self.result`, which the model tracks, so the return value is not modelled.
- Combos.WidgetVerdict: `\w` in `pat1`/`pat2` is taken as the ASCII letters, digits and '_'. Python's other Unicode word characters are not modelled.
- Morph: JSON values are modelled as strings and lists of strings. `widget in row["options"]` on a JSON string, which is a substring test, is not modelled, and a non-list "name" is not modelled either.
- The source does not filter `url(...)` values, merge selector sets or treat one-line rules specially, so the model does not either.
- QStyler/tab1.py and QStyler/tab2.py contain syntax errors. tab2.py is modelled from its text as written.
