# Young Islanders match-preview sharepic — a Dafny model

The repository makes the weekly "Spielvorschau" (match preview) picture for the
Young Islanders youth ice-hockey teams. It has three parts, and this project
models the logic of each:

* `template.py` lays out the picture. `TypeScale` is a modular type scale.
  `BoxOfRectangles` stacks one card per team, centred in the free region between
  the headlines and a fixed bottom line. It raises `OverflowingHBoxError` when
  the stack does not fit. The headline, logo and footer positions centre text
  horizontally. `create_svg` puts a team label and a date label on every card.
  Here these are functions over exact real numbers (module `Template`), plus a
  method with the loop that builds the cards and a method with the loop that
  places the labels.
* `run.py` fills an SVG template. For every youth team it looks at that team's
  fixtures in the current calendar week. With no fixture it blanks the team's
  date, opponent and time fields. With exactly one it writes them, and it also
  writes the calendar-week line. Two or more fixtures end the script. So does an
  unknown opponent abbreviation, or a field id that is not in the template. The
  SVG document is reduced to a map from element id to text. The script is the
  class `Run.SvgTree`: its `set_*`/`empty_*` writers and the loop are methods
  that update that map. Each method is proved against the pure functions
  `Run.Script` / `Run.TeamUpdate` / `Run.Write`.
* `teams.py` holds the `OPPONENTS` abbreviation table and the `DEB_IDS` team
  ids. Its main block compares the table with the opponents found in the
  scraped schedules: it names the keys nobody plays any more, and the opponents
  that lack a key. Here this is `Teams.Reconcile`, a method over the scraped
  opponent columns. Python's `lstrip` and `sorted` come from the support
  modules `Strings` and `Ordering`.

Python exceptions are modelled as `Result`/`Outcome` values (module
`Wrappers`). The modelled error paths are `Failure` values: the overflowing
box, the headlines reaching the bottom line, too many fixtures, an unknown
opponent abbreviation and a missing field id. The few exceptions that are
preconditions or are not modelled are listed one by one under "## Left out".

Source disagreements:

* run.py and teams.py strip the away marker differently, and the model keeps
  both behaviours. teams.py strips every leading `@` and blank
  (`lstrip("@ ")`). run.py removes exactly the two characters `"@ "`, and only
  when both are present.
* `BoxOfRectangles.__init__` checks only the lower edge of the stack. Because
  the stack is centred, the model proves that this also keeps the upper edge
  inside the region (`Template.BoxContained`).

## Model

| member | source | states |
|---|---|---|
| Template.ConstantValues | template.py:63-65 | The layout constants as exact values: MM_TO_UNITS = 480/127, card height 30 mm = 14400/127 units, card width 936, pad 36, card x 72, bottom line 315 mm. |
| Template.NewTypeScale | template.py:26-40 | BODY is the base size; CAPTION times the ratio is the base size; SMALL times the ratio is CAPTION. |
| Template.TypeScaleClosedForm | template.py:33-37 | H5, H4, H3, H2 and H1 are the base size times the ratio to the power 1, 2, 3, 4 and 5. |
| Template.TypeScaleDecreasing | template.py:33-40 | For a positive base and a ratio above 1, the sizes strictly decrease: H1 > H2 > H3 > H4 > H5 > BODY > CAPTION > SMALL > 0. |
| Template.DefaultTypeScale | template.py:115 | The scale TypeScale(32, 1.2) used by the generator, every size as an exact value (H1 = 79.62624 … SMALL = 200/9). |
| Template.NewBoxOfRectangles | template.py:69-97 | The loop that builds the cards returns exactly `Box(n, top, bottom)`: the n cards, or the overflow error. |
| Template.StackHeight | template.py:73-82 | The stack's height plus one pad is n card pitches (RECT_H + H_PAD), and one card or more is at least a card tall. |
| Template.YStart | template.py:73-82 | The first card starts half the stack's height above the centre of the region. |
| Template.Box | template.py:69-97 | A fitting box has n cards and total height 0; an overflow error names the bottom line, and its lowest card edge lies below it. |
| Template.BoxOverflow | template.py:92-97 | The box fails exactly when n·RECT_H + (n−1)·H_PAD exceeds the region height; the error carries the lowest card's bottom edge and the bottom line. |
| Template.BoxBoundary | template.py:92 | The comparison is strict: a stack exactly as tall as the region fits, and one unit less overflows. |
| Template.BoxEmpty | template.py:84-92 | Zero cards always fit and give an empty box. |
| Template.BoxShape | template.py:84-90 | A fitting box has exactly n cards, all at x = (WIDTH − RECT_W)/2 = 72. |
| Template.BoxSpacing | template.py:86-90 | Consecutive cards are RECT_H + H_PAD apart, so every later card starts at least H_PAD below the end of every earlier one. |
| Template.BoxSymmetric | template.py:73-82 | The stack reaches as far above the region's centre as below it: half of n·RECT_H + (n−1)·H_PAD each way. |
| Template.BoxMiddleCentred | template.py:73-82 | With an odd number of cards, the middle card's centre is the centre of the region. |
| Template.BoxContained | template.py:76-97 | Every card of a fitting box lies wholly between the top and bottom lines. |
| Template.CenteredX | template.py:173 | A line drawn at this x is centred: its middle is the middle of the picture, with equal margins left and right. |
| Template.LogoPosition | template.py:162-163 | The logo is at (440, 70). |
| Template.DrawHeadlines | template.py:168-188 | Both lines are horizontally centred on the picture (x plus half the line's width is WIDTH/2). The title's baseline is HEIGHT/4 = 337.5, the week line's is two of its own heights lower, and the returned top of the free region is half a line below that: 337.5 + 2.5·(week line height). |
| Template.FooterPosition | template.py:199-205 | The footer is centred at y = 0.93·HEIGHT = 1255.5. |
| Template.NewSharepicGenerator | template.py:109-137 | The generator fails exactly when the headlines end at or below the 315 mm bottom line, or (with the box's overflow error) exactly when the teams' cards do not fit between the two. The overflow error is the box's own `OverflowingHBoxError`. Otherwise the free region runs from the headlines' bottom to that line, the cards are exactly the box's, the logo, headlines and footer are the positions of `LogoPosition`, `DrawHeadlines` and `FooterPosition`, and the type scale is TypeScale(32, 1.2). |
| Template.GeneratorCapacity | template.py:129-135 | Up to five teams fit whenever the week line is at most 46.08 units high (the H4 size); six or more teams never fit. |
| Template.CreateSvg | template.py:241-262 | The loop gives one pair of labels per card, in the cards' order. The team label is at x = 0.09·WIDTH, vertically centred on its card; the date label starts 20 units after the team label's end and is centred on the same card. |
| Template.LabelsInsideCard | template.py:250-260 | Taking a label's ink to span from its baseline minus its height up to the baseline: labels no taller than a card lie vertically inside their card, and both labels share one middle line. |
| Strings.LStripSpec | run.py:60 | `lstrip(chars)` removes a prefix made only of those chars and stops at the first other char. |
| Strings.LStrip | teams.py:36 | `lstrip` never lengthens the string, and the result is empty or starts with a char outside the set. |
| Strings.LStripIdempotent | teams.py:36 | Stripping twice is stripping once. |
| Strings.IntToString | run.py:38 | `str(int)`: a minus sign exactly for negative numbers, then the decimal digits of the magnitude. |
| Strings.DecimalRoundTrip | run.py:38 | Reading back the decimal digits gives the number. |
| Strings.IntToStringInjective | run.py:38 | Different numbers give different strings. |
| Ordering.Less | teams.py:38-39 | Python's string order relates only different strings. |
| Ordering.LessIsStrictTotalOrder | teams.py:38-39 | Python's string order (code point by code point, a proper prefix first) is irreflexive, asymmetric, transitive and total. |
| Ordering.Sorted | teams.py:38-39 | `sorted(set)` has the set's size and its elements, in strictly increasing order. |
| Ordering.SortedHeadIsMin | teams.py:38-39 | A strictly increasing list of a set's elements starts with the set's least element. |
| Ordering.SortedTail | teams.py:38-39 | Its tail is a strictly increasing list of the other elements. |
| Ordering.MinUnique | teams.py:38-39 | A set has at most one least element. |
| Ordering.SortedUnique | teams.py:38-39 | Any strictly increasing list of exactly the set's elements is `sorted(set)`. |
| Teams.DebTeamsAreTheKeys | teams.py:6 | DEB_IDS has exactly the teams U17, U15 and U13; the list the loop visits holds exactly those three keys. |
| Teams.Normalise | teams.py:36 | A normalised opponent does not start with '@' or a blank, and it is the raw entry minus a prefix of those characters. |
| Teams.ScrapedTeams | teams.py:31-36 | No collected name starts with '@' or a blank. |
| Teams.ScrapedTeamsMembers | teams.py:31-36 | A name is in the collected set exactly when it is the normalised form of some entry of some scraped schedule. |
| Teams.Reconcile | teams.py:31-39 | The loop collects exactly those names. "can be removed" is the sorted list of OPPONENTS keys nobody plays; "missing" is the sorted list of opponents without a key. The two lists are disjoint. |
| Run.TeamAge | run.py:60 | `team.lstrip("U")` never lengthens the name and does not start with 'U'; `Strings.LStripSpec` states what it removes. |
| Run.SingleU | run.py:60 | A name with one leading 'U' loses exactly that letter. |
| Run.FieldId | run.py:14 | The id of a field is as long as the field name plus the age. |
| Run.FieldIdParts | run.py:14 | The id splits back into the field name and the age. |
| Run.YouthTeamAges | run.py:60 | The ages of U17 … U9 are "17", "15", "13", "11", "9". |
| Run.TeamFieldIdsU17 | run.py:14 | U17's field ids are DATE17, TEAM17 and TIME17. |
| Run.YouthAgesDistinct | run.py:13 | No two youth teams share an age, so no two share a field. |
| Run.FieldIdsDistinct | run.py:14 | The DATE, TEAM and TIME ids never collide, and one field's id determines the age. |
| Run.CalendarWeekIdNotTeamField | run.py:36 | The calendar-week id is no team's date, opponent or time id. |
| Run.TeamFieldIdsDisjoint | run.py:14 | Teams of different ages have disjoint field ids. |
| Run.SplitVenue | run.py:85-89 | The venue is "A" exactly when the column starts with "@ ", and "H" otherwise; the marker plus the remainder rebuild the column. |
| Run.OpponentText | run.py:20 | Without a venue the text is the opponent alone. With one it is the opponent followed by " [" , the venue and "]", three characters longer than both. |
| Run.CalendarWeekText | run.py:38 | The line is "SPIELVORSCHAU KW " followed by the week's decimal form. |
| Run.CalendarWeekTextInjective | run.py:38 | The calendar-week line determines the week. |
| Run.Decide | run.py:72-96 | No fixture blanks the team's fields. Several fixtures fail with the count. An unknown abbreviation of a U13–U17 opponent fails with the abbreviation. Otherwise the team's fields take the fixture's date and time. |
| Run.OpponentDisplay | run.py:20 | For U9 and U11 the opponent text is the column without its away marker; for the other teams it is the club name of the abbreviation, followed by " [A]" or " [H]". |
| Run.Write | run.py:17-56 | A run of writes succeeds exactly when every id exists. Otherwise it fails on the first missing id, every earlier id being present. A success keeps the set of ids. |
| Run.WriteEffect | run.py:17-56 | After a successful run of writes, ids nobody writes keep their text, and the last write to an id wins. |
| Run.WriteThree | run.py:72-76 | Three writes in a row raise on the first missing id of the three; otherwise the map has the three texts written in order. |
| Run.WriteFour | run.py:98-101 | Four writes in a row, likewise. |
| Run.TeamUpdateBlank | run.py:72-76 | A team without a fixture empties DATE, TEAM and TIME, in that order; the first missing id is the error. |
| Run.TeamUpdateFill | run.py:98-101 | A team with one fixture writes the calendar week, then DATE, TEAM and TIME; the first missing id is the error. |
| Run.TeamUpdate | run.py:72-101 | One loop step keeps the set of ids when it succeeds. A failed decision is its error unchanged. A write that fails after a successful decision fails on an id that is not in the template. |
| Run.TeamUpdateEffect | run.py:59-101 | One loop step changes only that team's three fields and the calendar-week line: empty fields without a fixture, the fixture's date, opponent text and time with one, plus this week's calendar-week line. |
| Run.TeamUpdateEffectBlank | run.py:72-76 | A team without a fixture gets its three fields emptied, and every other text keeps its value. |
| Run.TeamUpdateEffectFill | run.py:98-101 | A team with one fixture gets the calendar-week line and its three fields written, and every other text keeps its value. |
| Run.TeamUpdateKeeps | run.py:59-101 | One loop step keeps any text that is neither one of the team's fields nor the calendar-week line. |
| Run.Script | run.py:59-101 | The loop over the teams ends at the first error. On success it keeps the set of ids, and a missing-field error names an id that is not in the template. |
| Run.ScriptKeepsText | run.py:59-101 | A text that is no field of any visited team, and not the calendar-week line, is the same after the whole loop. |
| Run.ScriptKeepsWeek | run.py:72-76 | When no team has a fixture, the calendar-week line keeps the template's text. |
| Run.ScriptFieldsHead | run.py:59-101 | When no later team shares the first team's age, the first team's fields after the whole loop are those its own step wrote. |
| Run.ScriptFrame | run.py:59-101 | The whole loop changes no id other than the youth teams' fields and the calendar-week line. |
| Run.ScriptFields | run.py:59-101 | After a successful loop, every team's lookup succeeded (`FieldsFilled`). Each team's fields hold its own fixture's date, opponent text and time, or are empty when it has no fixture, so no team overwrites another's fields. With a fixture, the calendar-week line reads this week. |
| Run.ScriptCalendarWeek | run.py:98 | Every write of the calendar-week line writes the same text, so it never changes a line that already carries it. |
| Run.SvgTree.constructor | run.py:11-12 | The tree starts with the texts of the parsed template. |
| Run.SvgTree.SetText | run.py:18-20 | Writing a text succeeds and updates only that id if the id exists; otherwise it fails with that id and changes nothing. |
| Run.SvgTree.SetOpponent | run.py:17-20 | Writes "versus", plus " [where]" when where is not empty, to TEAM+age. |
| Run.SvgTree.SetDate | run.py:23-26 | Writes the date to DATE+age. |
| Run.SvgTree.SetTime | run.py:29-32 | Writes the time to TIME+age. |
| Run.SvgTree.SetCalendarWeek | run.py:35-38 | Writes "SPIELVORSCHAU KW " + week to CALENDAR_WEEK. |
| Run.SvgTree.EmptyOpponent | run.py:41-44 | Empties TEAM+age. |
| Run.SvgTree.EmptyDate | run.py:47-50 | Empties DATE+age. |
| Run.SvgTree.EmptyTime | run.py:53-56 | Empties TIME+age. |
| Run.SvgTree.BlankTeam | run.py:72-76 | The three `empty_*` calls for a team without a fixture: the method passes exactly when `TeamUpdate` succeeds, and the tree then holds its result; otherwise it fails with its error. |
| Run.SvgTree.WriteTeam | run.py:98-101 | The four `set_*` calls for a team with one fixture: the method passes exactly when `TeamUpdate` succeeds, and the tree then holds its result; otherwise it fails with its error. |
| Run.SvgTree.FillTeam | run.py:72-101 | The body of the loop for one team: it passes exactly when `TeamUpdate` succeeds, and then the tree holds its result; otherwise it fails with its error. |
| Run.SvgTree.RunScript | run.py:59-101 | The loop over U17, U15, U13, U11, U9 with week 48 and OPPONENTS: it passes exactly when `Script` succeeds, and then the tree holds its result; otherwise it fails with the first error. |

## Left out

- deb_scraper.py (the browser-driven schedule scraper) is not part of this model. `Teams.Reconcile` takes the scraped opponent columns, one per DEB_IDS entry in order, as its argument.
- Reading the team CSV files, `pd.to_datetime`, the ISO-week filter and `strftime` are not modelled. Each team's input is the list of fixture rows already in week 48, with the date as formatted text.
- The SVG document is a map from element id to text. `ET.parse`, `findall`, `TREE.write`, and the requirement of exactly one `<tspan>` child are left out. Because a map holds each id once, the ValueError for a duplicated id cannot arise in the model. The model does not say what the partly written tree holds after a failure, since the source writes nothing to disk then.
- Cairo, PIL and cairosvg drawing (background blur, logo rendering, `show_text`, `draw_frosted_rect`, `to_pil`) is left out, because it only draws. Font metrics (`text_extents`) are inputs to the layout functions.
- The `_DRAW_DEBUG` branch (`_draw_extents_of_boxes`) is left out; it is switched off and only draws lines.
- The `print` output of teams.py is the result of `Teams.Reconcile`.
- Layout arithmetic is exact over the reals; Python's floating-point rounding is not modelled.
- Template.NewTypeScale: requires a non-zero ratio instead of modelling Python's ZeroDivisionError. The source only uses the ratio 1.2.
- Template.Box: the number of cards is a `nat`. The source accepts a negative count but is never called with one.
- The `total_height` attribute of BoxOfRectangles is always 0 and is never read; it is kept as a field with that value.
- Iterating a BoxOfRectangles (`__iter__`) is reading its `rectangles` sequence in order.
- Template.CreateSvg: the source writes the same two label texts, "U17" and "20.12.2025", on every card. So each text's extents are one input, shared by all cards, and the texts themselves are not part of the model.
- Template.LabelsInsideCard: takes a label's ink to span from its baseline minus its height up to the baseline. Cairo's `y_bearing` is not an input, so glyphs that reach below the baseline are not covered.
- Template.Box: requires top_y < bottom_y instead of modelling the failing `assert` of `BoxOfRectangles.__init__`. The generator model, `Template.NewSharepicGenerator`, returns that `AssertionError` as its `RegionEmpty` failure, before it builds the box.
- Run.Decide: the error for several fixtures carries the team and the number of rows. The source's `ValueError(idx)` carries the boolean week mask instead.
- The ValueErrors of `findall` / `list(t)` for a duplicated id or a `<text>` without exactly one `<tspan>` are not modelled (see the SVG line above).
