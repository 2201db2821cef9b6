# todo — a verified model of the core

This project models the core of `todo`, a command-line todo list. A todo has an id, a
subject, a status, a priority, a context, tags, links and an optional description.
The service lists, adds, updates and removes todos. It keeps a log of events and a set of
named contexts, one of which may be current. The terminal output draws tables and cards.
The model is written in Dafny and covers:

- **Entities** (`src/model/`). Each entity is a value with its textual form and its parser:
  - ids are unsigned 16-bit numbers;
  - comma-separated lists (`Csvs`);
  - statuses and their ordering;
  - priorities, with `rust/src/model/prio.rs` modelled in `RustPrios`;
  - links, which are bi-directional or one-way;
  - tags, each at most 20 characters;
  - todos and their list order;
  - events and the change lines that describe an update.
- **Filtering and changesets** (`src/service/filter.rs`, `src/service/changeset.rs`). A filter
  is a predicate over todos. A changeset overwrites the fields it names.
- **The service** (`src/service/mod.rs`). It is a class over an in-memory store (`Repository`)
  that stands in for the SQLite repository. The store holds todos by id, the event log, the
  context names and the current context. Where the source validates, the service validates
  too, fails with the same error kinds, and records the same events. `remove_context` is
  modelled exactly as written. Both of its branches act on the default listing (the open
  todos in the *current* context, or every open todo when no context is current), not on
  the todos of the removed context. With `cascade` it changes no todo and only names the
  listed todos in the removal event. Without `cascade` the listed todos lose their context
  and the event names none.
- **Text layout**:
  - `src/util.rs`: word chunking, as a method with its loop proved against a recursive
    specification;
  - `src/format/table/`: padding, columns and tables;
  - `rust/src/format/table/`: tables whose columns are styled by a column formatter;
  - `src/format/card.rs`: the card view of one todo. The card prints the status text on the
    priority line when colour is off; the model keeps that behaviour.
- **Styling** (`src/style.rs`). This is terminal styling by ANSI "select graphic rendition"
  sequences (section 8.3.117 of ECMA-48). A styled string is the parameter sequence, the text
  and a reset.

Integers are unbounded in Dafny. Wherever the source's 16-bit ids or unsigned arithmetic
matter, the model states the bound explicitly. Strings are sequences of characters.
Whitespace is the Unicode White_Space set that `char::is_whitespace` tests, as in the source.
Lower-casing covers ASCII letters only. The source's byte-indexed slicing is modelled on
characters, which agrees with it on ASCII text.

## Model

| member | source | states |
|---|---|---|
| Ids.ParseU16 | src/model/mod.rs:30-31 | `str::parse::<u16>` succeeds exactly on an optional '+' followed by one or more decimal digits worth at most 65535, and then yields their decimal value |
| Ids.AccumulateCorrect | src/model/mod.rs:30-31 | the digit-by-digit accumulation of the `u16` parse overflows exactly when the accumulated decimal value exceeds 65535, and otherwise yields that value |
| Ids.ID.Display | src/model/mod.rs:44-48 | the printed identifier is a non-empty string of decimal digits whose value is the identifier's number |
| Ids.ID.Equals | src/model/mod.rs:38-42 | two identifiers are equal exactly when their numbers are |
| Ids.Parse | src/model/mod.rs:27-36 | `ID::try_from` succeeds exactly on a valid `u16` numeral, with its value; any other input fails with "invalid id: " followed by the input |
| Ids.ParseDisplay | src/model/mod.rs:27-48 | parsing a printed identifier gives the same identifier back |
| Ids.DisplayParse | src/model/mod.rs:27-48 | printing a parsed numeral reproduces the input when it has no '+' sign and no leading zero |
| Ids.CanonicalNumeral | src/model/mod.rs:44-48 | a digit string without a leading zero is the decimal rendering of its own value |
| Ids.ParseExamples | src/model/mod.rs:27-36 | "42" parses to 42; "+7" and "007" are both accepted as 7 |
| Ids.ParseBoundary | src/model/mod.rs:27-36 | 65535 is the largest accepted identifier; "65536" is rejected with its message |
| Ids.ParseRejects | src/model/mod.rs:27-36 | "-1", the empty string and a lone "+" are rejected |
| Csvs.New | src/model/mod.rs:81-83 | the new list holds exactly the given items |
| Csvs.Empty | src/model/mod.rs:85-87 | the empty list has length zero and reports empty |
| Csvs.Csv.Push | src/model/mod.rs:93-95 | pushing appends the item at the end, keeps every earlier item, and makes the list non-empty |
| Csvs.Csv.DisplayValues | src/model/mod.rs:89-91 | one display text per item, in item order |
| Csvs.LenCountsItems | src/model/mod.rs:97-103 | `is_empty` holds exactly when `len` is zero; a new list's length is its item count, a push adds one, and there is one display text per item |
| Csvs.Csv.Encode | src/model/mod.rs:140-143 | an empty list encodes as the empty text; when no item's encoding holds a comma, splitting the encoding at the commas gives the item encodings back in order |
| Csvs.Csv.Display | src/model/mod.rs:150-158 | no items print as nothing, one item as its own text, and more as every item's text plus two characters for each ", " between them |
| Csvs.Csv.HasAny | src/model/mod.rs:105-114 | the nested search with early return answers true exactly when some given value equals some stored item |
| Csvs.TryFrom | src/model/mod.rs:117-133 | the loop over the comma-separated pieces never fails and yields the decoded trimmed non-empty pieces, in order |
| Csvs.KeptPiecesShape | src/model/mod.rs:125-128 | every piece that becomes an item is non-empty, trimmed and free of commas |
| Csvs.EncodeDecode | src/model/mod.rs:136-147 | decoding the encoding of a list of strings gives the list back when each item is non-empty, trimmed and comma-free |
| Csvs.DecodeExample | src/model/mod.rs:164-174 | "1,2,3,4" decodes to the four items "1", "2", "3", "4" |
| Statuses.Status.Display | src/model/status.rs:62-71 | each status prints as a non-empty, trimmed, lower-case name |
| Statuses.Status.Styler | src/model/status.rs:73-83 | each status has only a foreground colour: new cyan, started blue, done green, blocked red |
| Statuses.FromName | src/model/status.rs:85-97 | a normalised name stands for the status whose display text it is, and "in-progress" also stands for started; any other name stands for none |
| Statuses.Parse | src/model/status.rs:85-97 | the input is lower-cased, then trimmed, then looked up by name; it fails exactly when no status has that name, with "unknown status: " and the original input |
| Statuses.Cmp | src/model/status.rs:113-140 | equal statuses compare equal; among open statuses started comes before new before blocked; done against any other status is `Less` |
| Statuses.Deserialize | src/model/status.rs:40-57 | deserialisation agrees with parsing when parsing succeeds, and otherwise fails with "invalid status" |
| Statuses.Serialize | src/model/status.rs:22-29 | the serialised text is the display text, and deserialising it gives the same status back |
| Statuses.ParseDisplay | src/model/status.rs:22-97 | parsing a status's display text, or deserialising its serialised form, gives the status back |
| Statuses.CmpReflexive | src/model/status.rs:117-140 | every status compares equal to itself |
| Statuses.CmpTotalOnOpen | src/model/status.rs:113-140 | on started, new and blocked the comparator is a strict total order, antisymmetric under argument swap, in the order started, new, blocked |
| Statuses.DoneIsLessBothWays | src/model/status.rs:117-140 | done against another status is `Less` in both argument orders, so the comparator is not antisymmetric there |
| Statuses.ParseExamples | src/model/status.rs:146-158 | the four names parse to their statuses |
| Statuses.ParseRejectsUnknown | src/model/status.rs:160-164 | "unknown" is rejected, with the input in the message |
| Statuses.ParseIgnoresCaseAndSpace | src/model/status.rs:85-97 | " Done\n" parses to done: case and surrounding whitespace are ignored |
| TagSets.New | src/model/tags.rs:11-13 | the new tag set lists exactly the given tags |
| TagSets.Tags.HasAny | src/model/tags.rs:15-24 | true exactly when some given value equals some tag |
| TagSets.Tags.Values | src/model/tags.rs:26-28 | the tags in their stored order |
| TagSets.Tags.Display | src/model/tags.rs:31-35 | no tags print as nothing; tags that are non-empty and hold no whitespace come back, in order, from splitting the printed text at whitespace |
| TagSets.AnyTooLong | src/model/tags.rs:42 | true exactly when some word is longer than 20 |
| TagSets.Parse | src/model/tags.rs:37-50 | the input's whitespace-separated words become the tags, unless one is longer than 20, which fails with the data error "invalid tag found: length greater than 20" |
| TagSets.ParseDisplay | src/model/tags.rs:31-50 | parsing the display text gives the tags back when each tag is a non-empty word without whitespace of at most 20 characters |
| TagSets.ParseExamples | src/model/tags.rs:64-74 | the empty string has no tags; "one two" has the two tags "one" and "two" |
| TagSets.HasAnyExamples | src/model/tags.rs:76-83 | "one" is among the tags of "one two"; "three" is not |
| TagSets.LengthLimit | src/model/tags.rs:40-49 | a word of exactly 20 characters is accepted; one of 21 is rejected |
| Prios.Prio.Display | src/model/prio.rs:46-55 | every priority prints as a non-empty, trimmed name |
| Prios.Prio.Styler | src/model/prio.rs:57-67 | low is blue, normal plain, high yellow and critical red, never bold or underlined |
| Prios.Cmp | src/model/prio.rs:23-44 | the comparator is the order of the ranks: critical, then high, then normal, then low |
| Prios.CmpTotalOrder | src/model/prio.rs:23-44 | the comparator is equal only on identical priorities, reverses under argument swap, is transitive, and puts critical before high before normal before low |
| Prios.FirstContained | src/model/prio.rs:80-84 | the search over the name list from a given position finds the first priority whose name occurs in the input, and finds none exactly when no later name occurs |
| Prios.Parse | src/model/prio.rs:69-87 | the first of low, normal, high, critical whose name occurs anywhere in the input; it fails exactly when no name occurs, with "invalid prio value: " and the input |
| Prios.SearchRank | src/model/prio.rs:74-79 | every priority has a position in the order the parser tries the names |
| Prios.NamesNotNested | src/model/prio.rs:74-84 | no priority name occurs inside a name the parser tries later |
| Prios.ParseDisplay | src/model/prio.rs:46-87 | parsing a priority's display text gives the priority back |
| Prios.ParseRejectsUnknown | src/model/prio.rs:115-119 | "unknown" is rejected with its message |
| Prios.ParseBySubstring | src/model/prio.rs:73 | a name is found anywhere, so "lower" parses as low |
| RustPrios.Parse | rust/src/model/prio.rs:69-80 | succeeds exactly on one of the four display names, with no trimming or case folding; any other input fails with the argument error "invalid prio value: " and the input |
| RustPrios.Styler | rust/src/model/prio.rs:56-67 | the styler is always bold and coloured like the other revision's styler |
| RustPrios.StyledText | rust/src/model/prio.rs:56-67 | the priority's name wrapped in the styler's escape sequence and a reset, so never the bare name |
| RustPrios.ParseDisplay | rust/src/model/prio.rs:45-80 | parsing a display name gives the priority back; "unknown", "Low" and " low" are rejected |
| RustPrios.StyleExamples | rust/src/model/prio.rs:56-67 | normal renders with the bold code only; critical with the red colour codes followed by bold |
| Links.Link.BiDirectional | src/model/link.rs:16-25 | a blocking link's counterpart is blocked-by the other todo, and vice versa; a relates-to link has no counterpart |
| Links.Link.WithId | src/model/link.rs:27-33 | the same kind of link, pointing at the given id |
| Links.Link.Id | src/model/link.rs:35-41 | the id the link points at, whatever its kind |
| Links.Link.Display | src/model/link.rs:44-52 | the printed link ends with a space and the decimal id of the todo it points at |
| Links.DisplayInjective | src/model/link.rs:44-52 | two links print alike only when they are the same link, of the same kind and with the same id |
| Links.Link.Encode | src/model/link.rs:81-88 | the canonical kind name ("blocks", "blockedby", "relatesto"), ':' and the id's decimal text |
| Links.Link.Equals | src/model/link.rs:97-114 | links are equal exactly when they have the same kind and the same id |
| Links.FromName | src/model/link.rs:65-69 | a lower-cased kind name gives the link of the kind it spells (three spellings each for blocked-by and relates-to) and none otherwise |
| Links.Parse | src/model/link.rs:54-72 | no ':' fails with "invalid link: " and the input; otherwise the part after the first ':' must parse as an id (its error propagates), and the lower-cased part before it must name a kind, else "invalid link: " and that lower-cased kind |
| Links.ParseAccepts | src/model/link.rs:54-72 | an input parses to a link exactly when it is a kind spelling in any letter case without ':', then ':', then a valid id numeral for the link's id |
| Links.DecodeEncode | src/model/link.rs:54-93 | every link's encoding parses back to the link |
| Links.Decode | src/model/link.rs:90-92 | decoding (which unwraps the parse) gives the link the parse succeeds with |
| Links.DecodeOfEncode | src/model/link.rs:81-93 | decoding an encoded link gives the link back |
| Links.BiDirectionalTwice | src/model/link.rs:16-25 | the counterpart of a blocking link's counterpart has the original kind |
| Links.ParseAcceptsExamples | src/model/link.rs:122-129 | "blocks:1", "blocked_by:1" and "blockedby:2" parse to the expected links |
| Links.ParseRejectsExamples | src/model/link.rs:131-138 | "blocks", "unknown", "blockedby:" and "blocks:-1" are rejected, the last two with the id parser's message |
| Orderings.Ordering.Reverse | src/model/status.rs:113-116 | `Less` and `Greater` swap and `Equal` stays, as for Rust's `Ordering::reverse`; applying it twice is the identity (`Orderings.ReverseInvolutive`) |
| Orderings.CmpInt | src/model/todo.rs:111 | the three-way comparison of two numbers, as for `Ord::cmp` on integers |
| Todos.Todo.Blocks | src/model/todo.rs:71-77 | the blocking links among the todo's links, in their stored order, and only those |
| Todos.Todo.Equals | src/model/todo.rs:80-84 | todos are equal exactly when their ids are, whatever their other fields |
| Todos.StatusPredicates | src/model/todo.rs:63-69 | `is_done` holds exactly for the status printed "done", `is_blocked` exactly for "blocked", and no todo is both |
| Todos.Cmp | src/model/todo.rs:94-117 | a done todo is always `Greater`; an open todo before a done one is `Less`; two open todos compare by priority, then status, then creation time |
| Todos.DoneAgainstDone | src/model/todo.rs:101-106 | two done todos compare `Greater` in both orders, so the comparator is not antisymmetric on done todos |
| Todos.CmpOpenIsOrder | src/model/todo.rs:94-117 | on open todos the comparator is a total preorder: reversed by argument swap, transitive on `Less` and on "not Greater", and reflexive |
| Filters.Filter.WithStatus | src/service/filter.rs:49-52 | replaces the status axis and leaves the context and tag axes as they were |
| Filters.Filter.WithContext | src/service/filter.rs:54-57 | replaces the context axis and leaves the other two as they were |
| Filters.Filter.WithTags | src/service/filter.rs:59-62 | sets the tag list and leaves the other two axes as they were |
| Filters.Filter.Apply | src/service/filter.rs:64-92 | the result keeps the input's order and holds exactly the input todos that pass the status, context and tag tests |
| Filters.ApplyIsOneFilter | src/service/filter.rs:64-92 | the three filters run one after the other keep the same todos, in the same order, as one filter on the conjunction of the three tests |
| Filters.Default | src/service/filter.rs:25-46 | the default filter keeps exactly the todos that are not done and, when a context is current, are in that context |
| Filters.ApplyAnyKeepsAll | src/service/filter.rs:64-92 | any status, any context and no tag list keep every todo in its place |
| Filters.CurrentWithoutContext | src/service/filter.rs:75-81 | without a current context the current-context filter is the same as any context |
| Filters.CurrentIsNamed | src/service/filter.rs:75-85 | with a current context the current-context filter is the same as naming that context |
| Filters.NoTagsKeepNothing | src/service/filter.rs:87-90 | an empty tag list keeps no todo |
| Filters.ApplyIdempotent | src/service/filter.rs:64-92 | filtering twice with the same filter is the same as filtering once |
| Filters.FixtureCount | src/service/tests/filter.rs:86-140 | for the five test todos, the count a filter keeps is the sum over them of whether each is kept |
| Filters.FixtureDefault | src/service/tests/filter.rs:4-10 | the default filter keeps the four open todos when no context is current |
| Filters.FixtureDefaultAnyContext | src/service/tests/filter.rs:12-18 | the default filter with any context keeps the same four open todos |
| Filters.FixtureAnyStatus | src/service/tests/filter.rs:54-60 | any status keeps all five todos |
| Filters.FixtureCurrentHome | src/service/tests/filter.rs:28-36 | any status in current context "home" keeps the two todos there |
| Filters.FixtureDone | src/service/tests/filter.rs:46-52 | status done keeps one todo |
| Filters.FixtureNewAtHome | src/service/tests/filter.rs:62-68 | status new in current context "home" keeps one todo |
| Filters.FixtureUnknownName | src/service/tests/filter.rs:38-44 | the context name "unknown" keeps nothing |
| Filters.FixtureTags | src/service/tests/filter.rs:78-84 | the tag "feat" keeps the two todos that carry it |
| Changesets.Changeset.WithSubject | src/service/changeset.rs:44-48 | sets the subject and the updated flag, leaving every other field as it was |
| Changesets.Changeset.WithStatus | src/service/changeset.rs:50-54 | sets the status and the updated flag, leaving every other field as it was |
| Changesets.Changeset.WithPrio | src/service/changeset.rs:56-60 | sets the priority and the updated flag, leaving every other field as it was |
| Changesets.Changeset.WithDescription | src/service/changeset.rs:62-66 | sets the description and the updated flag, leaving every other field as it was |
| Changesets.Changeset.WithContext | src/service/changeset.rs:68-72 | sets the context and the updated flag, leaving every other field as it was |
| Changesets.Changeset.WithTags | src/service/changeset.rs:74-78 | sets the tags and the updated flag, leaving every other field as it was |
| Changesets.Changeset.WithLinks | src/service/changeset.rs:80-84 | sets the links and the updated flag, leaving every other field as it was |
| Changesets.Changeset.Patched | src/service/changeset.rs:20-42 | every field the changeset carries overwrites the todo's, every absent field is kept, and the id and creation time never change |
| Changesets.Changeset.Apply | src/service/changeset.rs:20-42 | the field-by-field overwrite yields exactly the patched todo |
| Changesets.Default | src/service/changeset.rs:3-13 | the default changeset is empty and carries no field |
| Changesets.BuildIsEmpty | src/service/changeset.rs:15-18 | after a sequence of `with_*` calls on the default changeset, `is_empty` holds exactly when the sequence is empty, and an empty changeset leaves every todo as it was |
| Changesets.NoFieldsIsIdentity | src/service/changeset.rs:20-42 | a changeset without fields leaves the todo exactly as it was |
| Changesets.PatchIdempotent | src/service/changeset.rs:20-42 | applying the same changeset twice is the same as applying it once |
| Changesets.ContextNeverCleared | src/service/changeset.rs:33-35 | a changeset can set a context but never clear one |
| Changesets.SingleFieldUpdates | src/service/changeset.rs:20-72 | one builder on the default changeset changes exactly its own field of the todo |
| Changesets.ReplacesWholeValues | src/service/changeset.rs:33-41 | a present context or tag list replaces the todo's whole value; tags are not merged |
| Events.Action.Display | src/model/event.rs:15-23 | every action prints as a non-empty name |
| Events.Action.Styler | src/model/event.rs:25-34 | only a foreground colour: add green, update cyan, remove red |
| Events.ParseAction | src/model/event.rs:36-47 | succeeds exactly on one of the three display names; any other text fails with "invalid action: " and the text |
| Events.ParseActionDisplay | src/model/event.rs:15-47 | parsing an action's display name gives the action back |
| Events.TypeStrNamesVariant | src/model/event.rs:61-78 | two kinds share a type name exactly when they are the same variant; the names are the fixed snake-case ones |
| Events.Kind.TypeStr | src/model/event.rs:62-77 | each type name is a non-empty snake-case word: small letters and underscores, with no underscore first or last |
| Events.Kind.Display | src/model/event.rs:80-146 | the description opens with what happened: "Added " for an added todo or context, "Removed " for a removed one, "Updated todo: " for an update |
| Events.KindDisplayTexts | src/model/event.rs:80-137 | an added or removed todo is described by a fixed phrase and its id, which parses back to the todo's id; an added context by a phrase and its quoted name; a removed context by its quoted name and the number of todos it took along, whose numeral reads back as that count |
| Events.ContextChange | src/model/event.rs:101-119 | a changed context is reported in one entry: old and new quoted when both are set, "removed from" the old one, or "set to" the new one |
| Events.CollectChanges | src/model/event.rs:84-119 | the vector of changes pushed field by field is the list of entries for status, prio, subject, description and context, in that order, each only when the field differs |
| Events.ChangesCount | src/model/event.rs:84-119 | one entry per reported field that differs, and no entry exactly when those fields are equal |
| Events.NoChangesIff | src/model/event.rs:121-125 | an update describes itself as "no changes" exactly when status, prio, subject, description and context are all unchanged |
| Events.ListedChangesDiffer | src/model/event.rs:121-125 | a non-empty list of entries that each name a field never reads as "no changes" |
| Events.ChangesHaveColon | src/model/event.rs:86-119 | every change entry names its field followed by ':' |
| Events.SetContextPhrases | src/model/event.rs:135-143 | switching from no context reads "Context set to", switching to no context reads "Unset context from", otherwise "Changed context from ... to ..." |
| Events.Event.Display | src/model/event.rs:172-176 | the event prints as its id, " -- " and its kind's description |
| Style.Color.Rgb | src/style.rs:20-31 | every colour's code is a two-digit number starting with '3' |
| Style.ColorCodes | src/style.rs:20-31 | red is 31 up to cyan 36, and no two colours share a code |
| Style.Styler.Fg | src/style.rs:43-46 | sets the foreground colour and keeps the bold and underline flags |
| Style.Styler.Bold | src/style.rs:48-51 | sets the bold flag and keeps colour and underline |
| Style.Styler.Underline | src/style.rs:53-56 | sets the underline flag and keeps colour and bold |
| Style.Styler.Codes | src/style.rs:59-74 | the pushed parameter list is empty exactly when no colour, bold or underline is set |
| Style.CodesOrder | src/style.rs:59-74 | parameters in push order: "38", "2" and the colour code first when a colour is set; "1" present exactly when bold; "4" present exactly when underlined, and then last, with "1" just before it |
| Style.Styler.Style | src/style.rs:58-82 | the text comes back unchanged exactly when nothing is set; otherwise it is wrapped in ESC '[', the parameters joined with ';', 'm', and the reset sequence |
| Style.DefaultIsIdentity | src/style.rs:89-94 | the default styler leaves text exactly as it is |
| Style.SettersLastCallWins | src/style.rs:42-56 | each setter changes only its own field, setters of different fields commute, and a second call of the same setter wins |
| Style.ParametersShape | src/style.rs:59-80 | the parameter list is a non-empty run of decimal numbers separated by ';', the shape of a select-graphic-rendition sequence |
| Style.ParameterExamples | src/style.rs:96-129 | a red, bold and underlined styler writes "38;2;31;1;4"; bold alone writes "1", so bold text is longer than its input |
| Style.StyleNoNewline | src/style.rs:58-82 | styling adds no line feed |
| Padding.CenterPads | src/format/table/mod.rs:40-50 | the left and right padding of a centred cell add up to the deficit; a deficit of one goes entirely to the left, otherwise the left gets half (rounded down) and the right at most one more |
| Padding.CenterTestNeverHolds | src/format/table/mod.rs:44-45 | twice half the deficit plus the text never exceeds the size, so the branch that would pad `n - 1` on the left is never taken |
| Padding.Pad | src/format/table/mod.rs:31-54 | the padded text is exactly `size` characters: unchanged when it already fits, spaces after it when left-aligned, spaces split around it when centred |
| Padding.PadEmbeds | src/format/table/mod.rs:31-54 | padding adds only spaces: the text sits unchanged at its offset and every other character is a space |
| Padding.CenterBalance | src/format/table/mod.rs:40-50 | centring leans by at most one space, and leans left only for a deficit of one |
| Padding.PadExamples | src/format/table/mod.rs:31-54 | "ab" left-aligned in 4 is "ab  ", "add" centred in 8 is "  add   ", "ab" centred in 3 is " ab" |
| Padding.Truncate | src/format/table/mod.rs:56-64 | text shorter than the size is kept; anything else becomes its first `size - 4` characters and " ...", exactly `size` long |
| Padding.TruncateIdempotent | src/format/table/mod.rs:56-64 | truncating twice is truncating once |
| Padding.TruncateThenPad | src/format/table/mod.rs:109-119 | a truncated context fits its column, so padding it to the column width is always defined |
| Padding.TruncateExample | src/format/table/mod.rs:114-116 | a long context name in the 12-wide column shrinks to eight characters and " ..." |
| Columns.Col.Nth | src/format/table/col.rs:33-41 | a stored line comes back in the column's style; below the last line a blank line of the column's width |
| Columns.PaddedChunks | src/format/table/col.rs:16-19 | one line per word chunk of the content, each chunk padded to the width |
| Columns.New | src/format/table/col.rs:13-31 | the column keeps the width and the content's styler, spans one line per word chunk, and every line fills the width exactly without a line feed |
| Columns.NewLines | src/format/table/col.rs:16-19 | line `k` of a new column is chunk `k` of the content, padded to the width |
| Columns.HeightOfContent | src/format/table/col.rs:13-31 | empty content spans no line; any other content spans at least one |
| Columns.NthShape | src/format/table/col.rs:33-41 | every line `nth` returns holds no line feed, and is exactly the column's width when the styler is plain |
| Columns.ShortContent | src/format/table/col.rs:13-26 | content shorter than the width, without a line feed, is one line: the content padded |
| Table.HeaderStyler | src/format/table/mod.rs:191-195 | header cells are bold, without colour or underline |
| Table.MaxHeight | src/format/table/mod.rs:161 | the height of the tallest column, or 0 when there are no columns |
| Table.Cells | src/format/table/mod.rs:165-169 | one cell per column, the column's `nth` line |
| Table.RowLines | src/format/table/mod.rs:160-175 | one printed line per line of the tallest column, each the columns' `nth` lines joined by a space |
| Table.FormatRow | src/format/table/mod.rs:160-175 | the nested loops build exactly the row's lines joined by line feeds |
| Table.RowTextLines | src/format/table/mod.rs:160-175 | a row of aligned columns with at least one line splits at line feeds into exactly its lines |
| Table.RowLinesNoNewline | src/format/table/mod.rs:160-175 | no printed line of a row holds a line feed |
| Table.RowLineWidth | src/format/table/mod.rs:160-175 | with plain stylers every printed line of a row is the sum of the column widths plus one separator between columns |
| Table.ContextText | src/format/table/mod.rs:114-117 | the context cell shows the context truncated to 12 characters, or nothing when there is no context |
| Table.MapTodo | src/format/table/mod.rs:108-119 | five columns (ID, priority, status, context, title), all aligned |
| Table.MapTodoWidths | src/format/table/mod.rs:16-20 | the five columns have the widths 3, 10, 8, 12 and 50 of the header, the priority and status columns carry their own stylers and the other three none |
| Table.MapTodoCells | src/format/table/mod.rs:113-117 | the context column shows the truncated context and the title column the subject; a todo without context has an empty context column |
| Table.MapEvent | src/format/table/mod.rs:121-129 | four aligned columns of widths 3, 8, 20 and 50: the id, the action centred in its colour, the formatted timestamp and the kind's description |
| Table.TodoRows | src/format/table/mod.rs:133-139 | one formatted row per todo |
| Table.EventRows | src/format/table/mod.rs:148-154 | one formatted row per event |
| Table.TodoRowHeight | src/format/table/mod.rs:110 | every todo row is at least one line tall, because its ID cell is never empty |
| Table.HeaderHeight | src/format/table/mod.rs:74-90 | the todo header is at least one line tall |
| Table.HeaderAligned | src/format/table/mod.rs:74-90 | every header column is aligned |
| Table.TodoRowsJoin | src/format/table/mod.rs:133-139 | the todos' rows joined by line feeds are all their printed lines joined by line feeds |
| Table.TodoLinesNoNewline | src/format/table/mod.rs:133-139 | no printed line of the todo rows holds a line feed |
| Table.SplitTable | src/format/table/mod.rs:141 | header lines, a line feed and row lines split back into the header lines followed by the row lines |
| Table.TodosTableLines | src/format/table/mod.rs:133-142 | the todo table, read line by line, is the header's lines followed by every todo's lines in order |
| Table.EmptyTableLines | src/format/table/mod.rs:133-142 | with no todo, one empty line follows the header's lines |
| Table.TodoTableLines | src/format/table/mod.rs:144-146 | the table of one todo, read line by line, is the header's lines followed by the todo's lines |
| Table.EventRowHeight | src/format/table/mod.rs:123 | every event row is at least one line tall, because its ID cell is never empty |
| Table.EventHeaderHeight | src/format/table/mod.rs:92-106 | the event header is at least one line tall |
| Table.EventHeaderAligned | src/format/table/mod.rs:92-106 | every event header column is aligned |
| Table.EventRowsJoin | src/format/table/mod.rs:148-154 | the events' rows joined by line feeds are all their printed lines joined by line feeds |
| Table.EventLinesNoNewline | src/format/table/mod.rs:148-154 | no printed line of the event rows holds a line feed |
| Table.EventsTableLines | src/format/table/mod.rs:148-156 | the event table, read line by line, is the header's lines followed by every event's lines in log order |
| Table.EmptyEventsTableLines | src/format/table/mod.rs:148-156 | with no event, one empty line follows the header's lines |
| RustColumns.New | rust/src/format/table/col.rs:12-19 | the column keeps the width and carries no style; its lines are the other revision's: the word chunks of the content, each padded to the width |
| RustColumns.ColFormatter.Format | rust/src/format/table/col.rs:37-142 | the default formatter returns the cell unchanged, the header formatter makes it bold, and the todo and event formatters change only the cell of column 1 |
| RustColumns.FormatNoNewline | rust/src/format/table/col.rs:37-142 | no formatter introduces a line feed |
| RustColumns.StatusCellStyles | rust/src/format/table/col.rs:88-105 | a padded status cell is bold green for done, bold blue for started, and bold for new and blocked |
| RustColumns.ActionCellStyles | rust/src/format/table/col.rs:123-142 | a centred action cell is bold green for add, bold blue for update and bold red for remove |
| RustColumns.NoOccurrence | rust/src/format/table/col.rs:93-95 | a pattern whose first two characters never stand side by side in the text is not contained in it, so the `contains` tests fail |
| RustTable.FormattedCells | rust/src/format/table/mod.rs:159-164 | one cell per column: the column's `nth` line passed through the formatter with the column's index |
| RustTable.FirstLines | rust/src/format/table/mod.rs:157-167 | the first `n` printed lines, one per row number |
| RustTable.FirstLinesAt | rust/src/format/table/mod.rs:157-167 | printed line `row` is the formatted cells of line `row` joined by a space |
| RustTable.FormatCols | rust/src/format/table/mod.rs:154-170 | the nested loops build exactly the formatted lines, as many as the tallest column, joined by line feeds |
| RustTable.FormatLine | rust/src/format/table/mod.rs:159-166 | the inner loop builds exactly the formatted cells of one line joined by a space |
| RustTable.DefaultFormatterIsFormatRow | rust/src/format/table/col.rs:43-51 | with the formatter that styles nothing, a row of unstyled columns prints exactly as the other revision's `format_row` prints it |
| RustTable.FormattedLinesNoNewline | rust/src/format/table/mod.rs:154-170 | no printed line of a row of aligned columns holds a line feed |
| RustTable.MapTodo | rust/src/format/table/mod.rs:104-110 | three aligned columns: ID, status (the column at index 1) and title |
| RustTable.MapEvent | rust/src/format/table/mod.rs:112-123 | four aligned columns: ID, action (centred), timestamp and details |
| RustTable.MapTodoShape | rust/src/format/table/mod.rs:13-15 | the todo columns have the widths 3, 8 and 50 and carry no style, so colour comes from the formatter alone |
| RustTable.MapEventShape | rust/src/format/table/mod.rs:17-19 | the event columns have the widths 3, 8, 20 and 50 and carry no style |
| RustTable.TodoRowStatusCell | rust/src/format/table/mod.rs:127-136 | the first line of a todo row shows the padded status bold green when done, bold blue when started, and bold otherwise |
| RustTable.EventRowActionCell | rust/src/format/table/mod.rs:142-151 | the first line of an event row shows the centred action in its bold colour |
| RustTable.TodoRows | rust/src/format/table/mod.rs:127-133 | one formatted row per todo |
| RustTable.EventRows | rust/src/format/table/mod.rs:142-148 | one formatted row per event |
| RustTable.EventRowHeight | rust/src/format/table/mod.rs:114 | every event row is at least one line tall, because its ID cell is never empty |
| RustTable.EventHeaderHeight | rust/src/format/table/mod.rs:93-102 | the event header is at least one line tall |
| RustTable.EventHeaderAligned | rust/src/format/table/mod.rs:93-102 | every event header column is aligned |
| RustTable.EventRowsJoin | rust/src/format/table/mod.rs:142-148 | the events' rows joined by line feeds are all their printed lines joined by line feeds |
| RustTable.EventLinesNoNewline | rust/src/format/table/mod.rs:142-148 | no printed line of the event rows holds a line feed |
| RustTable.EventsTableLines | rust/src/format/table/mod.rs:142-151 | the event table, read line by line, is the bold header's lines followed by every event's lines in log order |
| RustTable.TodoRowHeight | rust/src/format/table/mod.rs:106 | every todo row is at least one line tall, because its ID cell is never empty |
| RustTable.TodoHeaderHeight | rust/src/format/table/mod.rs:83-91 | the todo header is at least one line tall |
| RustTable.TodoHeaderAligned | rust/src/format/table/mod.rs:83-91 | every todo header column is aligned |
| RustTable.TodoRowsJoin | rust/src/format/table/mod.rs:127-133 | the todos' rows joined by line feeds are all their printed lines joined by line feeds |
| RustTable.TodoLinesNoNewline | rust/src/format/table/mod.rs:127-133 | no printed line of the todo rows holds a line feed |
| RustTable.TodosTableLines | rust/src/format/table/mod.rs:127-136 | the todo table, read line by line, is the bold header's lines followed by every todo's lines in list order |
| RustTable.TodoTableLines | rust/src/format/table/mod.rs:138-140 | the table of one todo, read line by line, is the bold header's lines followed by the todo's lines |
| Util.Fill | src/util.rs:52-80 | the inner loop fills a chunk of at most `size` characters, takes a word whole when it fits (with a trailing space unless it fills the chunk exactly), cuts an over-long word that starts a chunk, and stops at the first word that does not fit; a chunk started empty always makes progress |
| Util.ChunksFrom | src/util.rs:48-86 | the outer loop yields at least one chunk, none longer than `size` |
| Util.LineChunksSpec | src/util.rs:39-89 | a line shorter than `size` is its own chunk; any other line is wrapped word by word into chunks of at most `size` characters |
| Util.WordChunksSpec | src/util.rs:29-37 | the chunks of every line of the text in order, none longer than `size`; no chunk exactly when the text is empty |
| Util.NextChunk | src/util.rs:49-80 | popping words off the reversed stack builds exactly the chunk, the remaining words and the done flag of the inner-loop specification |
| Util.LineChunks | src/util.rs:39-89 | the stack-based loop computes exactly the specified chunks of one line |
| Util.WordChunks | src/util.rs:29-37 | the chunks of each line pushed in order are exactly the specified chunks of the text |
| Util.WordChunksExamples | src/util.rs:91-100 | "one two three four" makes the two chunks "one two " and "three four" at size 10, and four chunks at size 5 |
| Util.LongWordExample | src/util.rs:61-66 | a word too long for the chunk is cut after `size - 2` characters and hyphenated: "abcdefgh" at size 5 is "abc-" then "defgh" |
| Util.SizeTwoMakesNoProgress | src/util.rs:61-66 | at size 2 the cut keeps nothing of the word, so the loop would push the whole word back forever |
| Util.SplitWordKeepsCharacters | src/util.rs:63-66 | the two pieces of a cut word hold all its characters; the hyphen replaces none |
| Util.WordChunksNoNewline | src/util.rs:29-37 | no chunk holds a line feed |
| Cards.New | src/format/card.rs:16-37 | with colour: an underlined bold heading, bold field names and bold blue context; without colour every styler is plain |
| Cards.Card.DescriptionLines | src/format/card.rs:93-103 | one line per word chunk of the description at width 100: the first after the bold "Description: ", every later one after an indent of 13 spaces; none exactly when the description is empty |
| Cards.Card.ContextLines | src/format/card.rs:59-66 | one context line when the todo has a context, none otherwise |
| Cards.Card.TagsLines | src/format/card.rs:68-76 | one tags line when the todo has tags, none otherwise |
| Cards.Card.HeadLines | src/format/card.rs:43-76 | the four fixed lines, then the optional context and tags lines |
| Cards.Card.DescriptionBlock | src/format/card.rs:78-83 | nothing for an empty description, else a blank line and one line per chunk |
| Cards.Card.CardLines | src/format/card.rs:40-86 | every card has at least the four fixed lines |
| Cards.Card.FormatDescription | src/format/card.rs:88-106 | nothing exactly for an empty description; otherwise the lines the loop pushes are the description lines |
| Cards.Card.PushHead | src/format/card.rs:41-76 | the pushes before the description build exactly the head lines |
| Cards.Card.Format | src/format/card.rs:39-86 | the card is its lines, pushed in order, joined by line feeds |
| Cards.CardParts | src/format/card.rs:40-86 | the card is its head lines followed by its description block |
| Cards.CardHead | src/format/card.rs:43-57 | a card starts with the heading-styled title, an empty line, the status line and the priority line |
| Cards.CardLength | src/format/card.rs:40-86 | a card has a context line exactly when the context is set, a tags line exactly when there are tags, and a blank line and the description chunks exactly when the description is not empty |
| Cards.CardOptionalLines | src/format/card.rs:59-76 | the context line follows the priority line when there is a context, and the tags line, the tags joined by ", ", follows that |
| Cards.CardDescription | src/format/card.rs:78-83 | a non-empty description ends the card: a blank line, then its lines |
| Cards.DescriptionAligned | src/format/card.rs:93-103 | under a plain label every description chunk starts in column 13, after the label on the first line and after the indent on the others |
| Cards.PlainCard | src/format/card.rs:47-57 | without colour the title is bare and the priority line shows the status text, as the code writes it |
| Cards.ColoredPriority | src/format/card.rs:47-57 | with colour the priority line shows the priority in its own colour |
| Cards.FixedFirst | src/format/card.rs:43-57 | the first four lines of every card are its fixed lines |
| Cards.CardSplits | src/format/card.rs:85 | when no title, context or tag holds a line feed, the formatted card split at line feeds gives its lines back |
| Cards.CardNoNewline | src/format/card.rs:40-86 | when no title, context or tag holds a line feed, no line of the card holds one |
| Cards.FormatNonEmpty | src/format/card.rs:115-131 | a formatted card is never empty: a line feed follows the title even when the title is empty |
| Repository.Rows | src/repository/mod.rs:34-43 | the stored todos with an id below the counter, at most one per id |
| Repository.RowsMembership | src/repository/mod.rs:34-43 | a todo is listed exactly when it is stored under an id below the counter |
| Repository.RowsAscending | src/repository/mod.rs:34-43 | the listed todos' ids are below the counter and strictly ascending, so no todo is listed twice |
| Repository.Store.constructor | src/repository/mod.rs:14-16 | a new store is empty: no todos, no contexts, no current context, no events, and the first id is 1 |
| Repository.Store.GetTodo | src/repository/mod.rs:18-32 | the stored todo under the id, or `NotFound` naming the id exactly when there is none |
| Repository.Store.GetTodos | src/repository/mod.rs:34-43 | every stored todo, and only those, in ascending id order |
| Repository.Store.AddTodo | src/repository/mod.rs:45-62 | the todo is stored under the next unused id, which the returned todo carries; nothing else changes |
| Repository.Store.ReplaceTodo | src/repository/mod.rs:64-80 | the todo overwrites the row with its id; nothing else changes |
| Repository.Store.RemoveTodo | src/repository/mod.rs:82-92 | an existing row is deleted and returned; without one the result is `NotFound` and nothing changes |
| Repository.Store.AddEvent | src/repository/mod.rs:105-120 | the event is appended to the log under the next event id; nothing else changes |
| Repository.Store.AddContext | src/repository/mod.rs:167-174 | the name is appended to the context names; nothing else changes |
| Repository.Store.SetCurrent | src/repository/mod.rs:150-165 | the current context becomes the given value, or none; nothing else changes |
| Repository.Store.RemoveContext | src/repository/mod.rs:176-182 | every entry with the name is deleted from the context names and the rest keep their order; nothing else changes |
| TodoSort.LeFacts | src/model/todo.rs:99-117 | on open todos "not greater" is total and transitive, and stays strict after a strict step |
| TodoSort.Insert | src/model/todo.rs:99-117 | inserting an open todo into a sorted open list gives a sorted open list with the todo added |
| TodoSort.SortOpen | src/service/mod.rs:38 | sorting open todos gives a permutation of them in comparator order |
| TodoSort.Sort | src/service/mod.rs:38 | `sort` gives a permutation of the todos in which every open todo precedes every todo it compares below, and every done todo comes after all open ones |
| TodoSort.PartitionMultiset | src/service/mod.rs:38 | splitting by "done" loses and duplicates no todo |
| TodoSort.SortedThenDone | src/model/todo.rs:99-117 | sorted open todos followed by done todos are in list order |
| TodoSort.SortOpenOfSorted | src/service/mod.rs:38 | sorting an already sorted list of open todos changes nothing |
| TodoSort.InsertAtEnd | src/model/todo.rs:99-117 | inserting a todo that no element exceeds appends it |
| Services.ValidateContextName | src/service/mod.rs:279-290 | the name is trimmed; it is accepted, trimmed, exactly when 2 to 10 characters remain; an empty trimmed name fails naming the input, and one that is too short or too long fails with its own message |
| Services.ValidateIdempotent | src/service/mod.rs:279-290 | a validated name is accepted again unchanged |
| Services.ValidateExamples | src/service/mod.rs:279-290 | a name of blanks is rejected; "new" and " test " are accepted as "new" and "test" |
| Services.ClearAllEffect | src/service/mod.rs:265-268 | writing each listed todo back without its context keeps every stored id, and a stored todo loses its context exactly when it was listed |
| Services.Service.constructor | src/service/mod.rs:14-18 | the service wraps the given store and, since the store keeps the repository's invariant, keeps the service's invariant |
| Services.Service.GetTodo | src/service/mod.rs:22-25 | succeeds exactly when the id is stored, with that todo; otherwise fails with `NotFound` naming the id |
| Services.Service.ListEvents | src/service/mod.rs:124-126 | the whole event log, in the order the events were recorded |
| Services.Service.GetContext | src/service/mod.rs:227-229 | the current context, or none when no context is set |
| Services.Service.ListContexts | src/service/mod.rs:231-235 | every stored context name, in the order they were added |
| Services.Service.ListTodos | src/service/mod.rs:27-40 | the stored todos, filtered under the current context when a filter is given, sorted: exactly the stored todos the filter keeps, each once, in list order |
| Services.Service.AddTodo | src/service/mod.rs:42-69 | the new todo, created at `created`, in the current context and with no links, is stored under a fresh id, and one "add" event stamped `now` records it |
| Services.Service.RemoveTodo | src/service/mod.rs:71-76 | an unknown id fails with `NotFound` and changes nothing; otherwise the todo is deleted and one "remove" event records it |
| Services.Service.UpdateTodo | src/service/mod.rs:78-115 | an unknown id fails with `NotFound` naming it and changes nothing; otherwise the given fields overwrite the stored todo as a changeset with them would, the todo is replaced and one "update" event records before and after |
| Services.Service.AddContext | src/service/mod.rs:184-195 | an invalid name fails with the validation error and an existing one with "context name already exists"; both change nothing; otherwise the trimmed name is stored and one "add" event logged |
| Services.Service.SetContext | src/service/mod.rs:197-219 | an invalid name or an unknown one ("context name not found") fails and changes nothing; the already current context logs nothing; otherwise it becomes current and one "update" event records the switch, from "" when none was set |
| Services.Service.UnsetContext | src/service/mod.rs:221-225 | no context is current afterwards, and nothing is logged |
| Services.Service.ClearContexts | src/service/mod.rs:265-268 | each listed todo is written back without its context, and nothing else changes |
| Services.Service.DefaultListing | src/service/mod.rs:239 | the default listing: each listed todo is the one stored under its id, and a stored todo is listed exactly when the default filter keeps it |
| Services.Service.DetachTodos | src/service/mod.rs:253-270 | with cascade the listed todos are reported and the store is unchanged; without it each listed todo loses its context and none is reported |
| Services.Service.RemoveContext | src/service/mod.rs:237-277 | the current context is unset if it is the removed one; without cascade the todos of the default listing lose their context, with cascade none is deleted; every entry of the name is removed and one "remove" event lists the cascaded todos |
| Services.ListedIffKept | src/service/mod.rs:239 | a stored todo is in the listing exactly when the default filter keeps it |
| Services.SelectedAreStored | src/service/mod.rs:239 | every listed todo is the one stored under its own id |
| Text.ToLower | src/model/status.rs:89 | lower-casing keeps the length, turns each ASCII capital 'A' to 'Z' into its small letter and keeps every other character |
| Text.Trim | src/service/mod.rs:280 | the trimmed text is the slice of the input that follows its leading whitespace; every character dropped before or after it is whitespace, and the slice neither starts nor ends with whitespace |
| Text.Split | src/model/mod.rs:125 | splitting at a character gives at least one piece, no piece holds the separator, and the pieces joined with the separator are the text |
| Text.SplitJoin | src/model/mod.rs:136-147 | splitting what was joined with a separator that occurs in no piece gives the pieces back |
| Text.SplitWhitespace | src/model/tags.rs:41 | the words are non-empty and hold no whitespace |
| Text.SplitWhitespaceLayout | src/model/tags.rs:41 | the text is the words in order, separated by non-empty runs of whitespace, with possibly empty runs before the first and after the last; so the words are the maximal runs of non-whitespace |
| Text.SplitWhitespaceJoin | src/model/tags.rs:31-41 | splitting at whitespace what was joined with single spaces gives the words back |
| Text.Lines | src/util.rs:31 | an empty text has no lines, any other text at least one, and no line holds a line feed; for a text without carriage returns, the lines joined with line feeds are the text, less its final line feed if it has one |
| Text.IndexOf | src/model/link.rs:58 | the position of the first occurrence of the character |
| Text.NatToStringValue | src/model/mod.rs:44-48 | the printed decimal numeral of a number is made of digits and reads back as the number |

## Left out

- Persistence: the SQLite repository, its SQL and the JSON encoding of events are not modelled. `Repository.Store` is an in-memory stand-in for the repository's methods, not for the database: it has no schema, no constraints and no triggers, and it keeps every field of a todo. The source's SQL does not keep them all: `add_todo` and `replace_todo` write no links (src/repository/mod.rs:47,65-66), so a reloaded todo has none, while the store keeps them.
- Repository.Store.RemoveContext: deletes the name and touches no todo, so todos may go on naming a removed context. The cascade test (src/service/tests/context.rs:100-120) expects the context's todos to be deleted. Only a foreign key or trigger in the database schema could do that, and the schema is not part of this model; src/error.rs:84-85 maps SQLite's foreign-key error 787 to `NotFound`, which hints at one. The model follows the Rust code, which deletes no todo.
- The command line (`src/cli/`, `src/bin/todo.rs`), prompts and interaction are not modelled. They parse arguments and print, and this model specifies neither.
- Asynchronous execution (`async`/`await`, tokio) is not modelled, because the model's operations run in sequence.
- Logging (`log::info!` and friends) is left out, because it changes nothing the model observes.
- Clocks become parameters: the service's operations take the current time as `now`. `add_todo` reads the clock twice, once for the todo's creation time (src/service/mod.rs:53) and once for its event's time stamp (src/service/mod.rs:121), so Services.Service.AddTodo takes both, `created` and `now`. How a `NaiveDateTime` is rendered becomes a parameter `formatTime`, because the calendar and time-zone code is outside the core.
- `random_string`, `try_get_env` and `read_file` in `src/util.rs` are left out: they use randomness, the environment and the file system.
- `src/format/mod.rs` and the link/unlink commands of the command line are not part of this model.
- The mapping of foreign errors (SQL, I/O, serde) in `src/error.rs` is not modelled. Only the error kinds the core raises appear.
- Serde derivations beyond the textual forms are left out, because they are generated code.
- Csvs.Csv.Push: returns the extended list rather than appending in place, because `Csv` is a value inside `Todo`.
- Changesets.Changeset.Apply: returns the updated todo rather than changing it through `&mut`. Its caller replaces the stored todo with the result, so nothing in the service can see the difference.
- Repository.Store.ReplaceTodo: requires the id to be stored already. Every caller in the service has looked the todo up first.
- Repository.Store.AddTodo: requires a free id below 65536. The SQLite row id has no such bound, but an id beyond it cannot be decoded into the 16-bit `ID`.
- Util.WordChunks: requires a chunk size of at least 3. With size 2 the source's loop makes no progress (`SizeTwoMakesNoProgress`), and below 2 its subtraction underflows. Every table column in the source is wider.
- TodoSort.Sort: the order among done todos is left unconstrained, and so is the relative order of open todos that compare equal. A done todo compares `Greater` against another done todo in both orders (`Todos.DoneAgainstDone`), so the source's sort promises no order between them. The contract states that the result is a permutation of the input, with the open todos first and in comparator order.
- Padding.Pad: the source's centring branch taken when `n * 2 + len > size` can never be taken (`Padding.CenterTestNeverHolds`), so the model does not write it. `Pad` requires the text to fit, because the source's subtraction underflows for a longer string.
- Byte-indexed string slicing (`truncate`, `word_chunks`) is modelled on characters, which agrees with the source on ASCII text only.
- Text.ToLower: lower-cases the ASCII letters only, where Rust's `to_lowercase` applies the full Unicode case mapping. For example, 'É' becomes 'é' in the source but stays 'É' here. The Kelvin sign U+212A becomes 'k' in the source, so "BLOC\u{212A}ED" parses as the blocked status in the source and fails here. The same difference applies to the link kinds. The Unicode case tables are outside the model. Text.Trim and Text.SplitWhitespace use the full White_Space set, as the source does.
- Repository.Store.CanLog: events get the ids 1 to 65535, so the store logs at most 65535 events. Repository.Store.AddEvent and every service method that logs an event require room for one more. The SQLite event log has no such bound, but a larger event id cannot be decoded into the 16-bit `ID`.
- Links.Decode: requires the text to parse. The source's `decode` unwraps the parse result (src/model/link.rs:90-92) and panics on any other text. The model has no panic, so that input is excluded.
- The `_color` argument of `TableFormatter::new` in `rust/src/format/table/mod.rs` is ignored by the source, so it is not a parameter of the model.
- Mixed field names: `card.rs` and the table code read `todo.title`, while `todo.rs` names the field `subject`. The model uses `subject` throughout, and card tags use the todo's tag list.
