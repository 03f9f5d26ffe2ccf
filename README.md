# Price-transparency validator core, modelled in Dafny

This project models the logic at the centre of the price-transparency
validator.

- **`schemavalidator.cpp`** is the streaming JSON handler.
  - It keeps a stack of member names (`objectPath`) and, in step with it, a
    stack of indexed frames (`objectPathWithArrayIndices`), plus the pending
    key `lastKey`.
  - It arms at most one configured report (`currentReport`) and forwards the
    reader's events to it while the location stays on that report's path.
  - It renders locations as text (`objectPathToString`).
  - It flattens the validator's error tree into indented message blocks
    (`CreateErrorMessages`, `HandleError`, `GetString`).
- **`src/utils.ts`** supplies:
  - the content-type/URL tests `isGzip` and `isZip`;
  - the pager `chooseJsonFile` with its menu `showMenuOptions`, which lets
    the user pick a JSON file from a ZIP archive.
- **`src/SchemaManager.ts`** covers:
  - `makeSchemaStrict`;
  - the tag listing and version state of `useVersion`;
  - the cache naming and strict/loose choice of `useSchema`.

Modules, one per file:

| file | module | what it holds |
|---|---|---|
| `wrappers.dfy` | `Wrappers` | `Option` and `Result` |
| `strings.dfy` | `Strings` | decimal rendering, `find`/`replace`, `join`, `split`, `trim` |
| `json.dfy` | `JsonValues` | JSON values as a datatype; member lookup and update |
| `paths.dfy` | `ObjectPaths` | both `objectPathToString` overloads, `almostThere` |
| `tracker.dfy` | `PathTracker` | each event's effect on the location, as pure transitions; whole documents |
| `handler.dfy` | `SchemaValidator` | the static path tables; class `MessageHandler` (one method per callback); examples |
| `routing.dfy` | `ReportRouting` | the handler's state as a value, one event at a time; what every report receives from a whole document |
| `errors.dfy` | `ErrorMessages` | `GetString`, placeholder substitution, `HandleError`, `CreateErrorMessages` |
| `utils.dfy` | `DownloadUtils` | `isGzip`, `isZip`, `parseInt`, the pager, `showMenuOptions` |
| `schema_manager.dfy` | `SchemaManagement` | `makeSchemaStrict`, tag parsing, cache names, class `SchemaManager` |

How the external pieces are modelled:

- **Report outputs.** Each is the sequence of writer calls it receives (`Token`s).
- **Error output.** A sequence of lines.
- **Library and runtime services.** These become parameters:
  - the validator's code-to-template table and the formatting of doubles (`Library`);
  - git's output;
  - the file system, as a map from path to text;
  - `JSON.parse` and `JSON.stringify`.

## Model

| member | source | states |
|---|---|---|
| Strings.IntToDecimal | schemavalidator.cpp:196 | `to_string`: a leading '-' exactly for negatives, then the digits of the magnitude |
| Strings.NatToDecimal | schemavalidator.cpp:196 | the text is non-empty and all digits; it starts with '0' only for zero |
| Strings.DecimalRoundTrip | schemavalidator.cpp:196 | reading a rendered natural number back gives the number |
| Strings.DecimalInjective | schemavalidator.cpp:196 | different numbers never render alike |
| Strings.Find | schemavalidator.cpp:74 | `message.find(insertName)`: the first occurrence, none before it, or none at all |
| Strings.FindFrom | schemavalidator.cpp:74 | searching from a position: the first occurrence at or after it, or none after it |
| Strings.NotFound | schemavalidator.cpp:74-76 | a pattern whose first character is absent is not found, so its insert is skipped |
| Strings.ReplaceFirst | schemavalidator.cpp:93 | `message.replace`: the prefix and suffix around the first occurrence are kept; the pattern is replaced by the insert |
| Strings.FoundAfter | schemavalidator.cpp:74 | a copy of the pattern whose first character does not occur earlier is the first occurrence |
| Strings.Split | src/SchemaManager.ts:34 | `split('\n')`: at least one piece, no piece contains the separator |
| Strings.JoinSplit | src/SchemaManager.ts:34 | joining the pieces with the separator restores the string |
| Strings.SplitJoin | src/SchemaManager.ts:34 | splitting a join of separator-free pieces gives the pieces back |
| Strings.SplitPiece | src/SchemaManager.ts:34 | a string without the separator splits into itself alone |
| Strings.Trim | src/SchemaManager.ts:35 | `trim()`: the result is a slice with non-space ends; everything cut off is white space |
| Strings.TrimTrimmed | src/SchemaManager.ts:35 | a trimmed string is left as it is |
| Strings.TrimIdempotent | src/SchemaManager.ts:35 | trimming twice is trimming once |
| JsonValues.Get | schemavalidator.cpp:65 | the value of the first member with the name, or none when there is no such member |
| JsonValues.FindMember | schemavalidator.cpp:111 | the position of the first member with the name, or none when no member has it |
| JsonValues.Names | src/SchemaManager.ts:81 | `Object.keys`: the member names, in order |
| JsonValues.SetMember | src/SchemaManager.ts:79 | after `obj[name] = v` the member reads as `v` |
| JsonValues.SetMemberKeepsOthers | src/SchemaManager.ts:79 | setting one member leaves every other member's value unchanged |
| JsonValues.SetMemberNames | src/SchemaManager.ts:79 | an existing key keeps its place; a new key is appended at the end |
| ObjectPaths.PathToStringAppend | schemavalidator.cpp:164-179 | rendering a path is rendering its parts one after the other |
| ObjectPaths.PathToStringEmpty | schemavalidator.cpp:164-179 | only the empty path renders as "" |
| ObjectPaths.IndexedPathToString | schemavalidator.cpp:185-188 | an empty path renders as `lastPart` |
| ObjectPaths.IndexedPathIsDottedJoin | schemavalidator.cpp:181-223 | for a path that starts with a named frame: names and indices joined with ".", no leading dot, then `lastPart` when non-empty |
| ObjectPaths.IndexedPathAsPrefixed | schemavalidator.cpp:191-221 | the first name, then each later frame (name or index) after a ".", then "." and `lastPart` when non-empty |
| ObjectPaths.WalkPaths | schemavalidator.cpp:584-597 | the comparison loop agrees with the prefix relation `OnTheWay` whenever the lengths allow a match |
| ObjectPaths.AlmostThere | schemavalidator.cpp:577-603 | true exactly when the target is a prefix of the location, or is the location followed by `lastKey`; false when the location plus one is shorter than the target |
| ObjectPaths.MismatchRejects | schemavalidator.cpp:591-594 | a difference at a position inside both lists means false |
| ObjectPaths.DescendingKeepsMatch | schemavalidator.cpp:585-590 | once the target is a prefix of the location, going deeper keeps the match whatever the key |
| PathTracker.OnKey | schemavalidator.cpp:310 | a key only becomes the pending key; both stacks stay in step |
| PathTracker.OnScalar | schemavalidator.cpp:347-351 | the innermost index goes up by one exactly when the top frame is "[]" and no key is pending; nothing is pushed or popped; the key is cleared |
| PathTracker.OnStartObject | schemavalidator.cpp:365-377 | a frame (key, -1) is pushed on both stacks only for a non-empty key; the key is NOT cleared |
| PathTracker.OnEndObject | schemavalidator.cpp:379-392 | inside an array the index is bumped instead of popping; otherwise one frame is popped from each stack; the key is cleared |
| PathTracker.OnStartArray | schemavalidator.cpp:404-410 | (lastKey, -1) then ("[]", 0) are pushed; the key is cleared |
| PathTracker.OnEndArray | schemavalidator.cpp:418-425 | exactly two frames are popped from each stack; the enclosing index is not bumped |
| PathTracker.EndArrayUndoesStartArray | schemavalidator.cpp:404-425 | opening and at once closing an array restores both stacks |
| PathTracker.Apply | schemavalidator.cpp:308-575 | every event keeps the stacks in step; it fails exactly on an array close with fewer than two frames |
| PathTracker.Run | schemavalidator.cpp:308-575 | a sequence of events, applied in order, keeps both stacks in step |
| PathTracker.RunAppend | schemavalidator.cpp:308-575 | running two event sequences one after the other is running their concatenation |
| PathTracker.FieldKeepsStacks | schemavalidator.cpp:308-435 | a member (key, then value) leaves both stacks as they were |
| PathTracker.KeyedObject | schemavalidator.cpp:365-392 | an object under a key pushes that key's frame and pops it again |
| PathTracker.KeyedValue | schemavalidator.cpp:308-435 | any value under a key returns the stacks to where they were, with the key cleared |
| PathTracker.FieldsKeepStacks | schemavalidator.cpp:308-435 | the members of an object leave both stacks as they were |
| PathTracker.ArrayKeepsStacks | schemavalidator.cpp:404-425 | a balanced array leaves both stacks as before, whatever it contains |
| PathTracker.ItemsAdvanceIndex | schemavalidator.cpp:345-435 | an array's items advance its index once per item that is not itself an array |
| PathTracker.ElementEffect | schemavalidator.cpp:345-435 | one element advances the index unless it is an array |
| PathTracker.ElementObject | schemavalidator.cpp:365-391 | an object element pushes nothing and counts as one element when closed |
| PathTracker.DocumentReturnsToStart | schemavalidator.cpp:308-435 | a whole document whose keys are neither "" nor "[]" returns the handler to the empty location without breaking a stack |
| PathTracker.EmptyKeyObjectAdvancesIndexTwice | schemavalidator.cpp:367-391 | an object under the key "" pops its parent's frame early: element `{"x": {"": {}}}` advances the index twice |
| SchemaValidator.ReportsFor | schemavalidator.cpp:258-279 | the reports per schema name, in order; every path is non-empty and ends in a name; unknown schemas have none |
| SchemaValidator.FirstArmable | schemavalidator.cpp:331-340 | the first report in configuration order whose path does not end in "[]" and is `almostThere`; or none |
| SchemaValidator.FirstArmableIsFirst | schemavalidator.cpp:331-340 | any report that is armable and has no armable report before it is the one the search arms |
| SchemaValidator.Emitted | schemavalidator.cpp:308-435 | only the armed report's output grows, by exactly the one writer call |
| SchemaValidator.Rechecked | schemavalidator.cpp:356-359 | the armed report stays armed exactly while `almostThere` holds for its path |
| SchemaValidator.StartObjectKeepsOnTheWay | schemavalidator.cpp:365-377 | opening an object never disarms a report |
| SchemaValidator.StartArrayKeepsOnTheWay | schemavalidator.cpp:404-416 | opening an array never disarms a report |
| SchemaValidator.MessageHandler.constructor | schemavalidator.cpp:258-290 | each report's output starts with `StartObject`; nothing is armed; the location is empty |
| SchemaValidator.MessageHandler.Key | schemavalidator.cpp:308-343 | a report that stays on its path gets the bare key and no search runs; otherwise the first armable report is armed and gets `objectPathToString(indices, key)` |
| SchemaValidator.MessageHandler.Scalar | schemavalidator.cpp:345-363 | location as `OnScalar`; the value goes to the armed report first, which is then disarmed exactly when `almostThere` fails |
| SchemaValidator.MessageHandler.StartObject | schemavalidator.cpp:365-377 | location as `OnStartObject`; forwarded; never arms or disarms |
| SchemaValidator.MessageHandler.EndObject | schemavalidator.cpp:379-402 | location as `OnEndObject`; forwarded, then rechecked |
| SchemaValidator.MessageHandler.StartArray | schemavalidator.cpp:404-416 | location as `OnStartArray`; forwarded; never arms or disarms |
| SchemaValidator.MessageHandler.EndArray | schemavalidator.cpp:418-435 | location as `OnEndArray`; forwarded, then rechecked |
| SchemaValidator.MessageHandler.CleanupWriter | schemavalidator.cpp:292-306 | every report's output is closed with `EndObject` and nothing else changes |
| SchemaValidator.InNetworkArming | schemavalidator.cpp:308-343 | the bare key `provider_references` arms nothing; `location` inside its array arms the provider-references report |
| SchemaValidator.ProviderReferenceKey | schemavalidator.cpp:181-223 | an element's location is reported under `provider_references.<index>.location` |
| SchemaValidator.ReadLocationElement | schemavalidator.cpp:308-402 | one `{"location": v}` element: the report gets the indexed key and the value, is disarmed, and the index advances |
| SchemaValidator.OpenProviderReferences | schemavalidator.cpp:258-416 | after `{"provider_references": [`, nothing is armed and the location is that array's element 0; every report holds only its opening call |
| SchemaValidator.ReadLocationKey | schemavalidator.cpp:308-343 | the key `location` in an element arms the provider-references report, which gets `provider_references.<index>.location` |
| SchemaValidator.ReadLocationValue | schemavalidator.cpp:345-363 | the value goes to that report, which is then disarmed; the element index advances |
| SchemaValidator.ProviderReferencesReport | schemavalidator.cpp:258-435 | a two-element document: only the provider-references report receives anything, each location under its own index |
| SchemaValidator.CloseProviderReferences | schemavalidator.cpp:292-306 | closing the array and the document with nothing armed: every report just gets its closing `EndObject` |
| SchemaValidator.LastUpdatedReport | schemavalidator.cpp:308-363 | a top-level member is reported under its bare name |
| ReportRouting.Step | schemavalidator.cpp:308-435 | one reader event, as its callback handles it: the location moves exactly as `PathTracker.Apply` says; it fails exactly on an array close with fewer than two frames |
| ReportRouting.RunHandler | schemavalidator.cpp:308-435 | a sequence of events succeeds exactly when the tracker's run does, and ends at the same location |
| ReportRouting.RunHandlerAppend | schemavalidator.cpp:308-435 | handling two event sequences one after the other is handling their concatenation |
| ReportRouting.Handle | schemavalidator.cpp:308-435 | each callback, called on the handler object, changes it as `Step` says |
| ReportRouting.HandleAll | schemavalidator.cpp:747 | the reader forwarding every event in turn leaves the handler in the state `RunHandler` gives |
| ReportRouting.FirstAt | schemavalidator.cpp:331-340 | the first report in configuration order whose path is the given one, or none when no report has it |
| ReportRouting.ArmsExactly | schemavalidator.cpp:331-340 | outside every report's value, a key arms exactly the first report whose path is the location followed by that key |
| ReportRouting.InsideValue | schemavalidator.cpp:308-435 | inside an armed report's value, every event of a value goes to that report alone, which receives exactly the value's writer calls and stays armed |
| ReportRouting.InsideFields | schemavalidator.cpp:308-343 | inside an armed report's value, each member's key goes to the report as it is, followed by the member's value |
| ReportRouting.InsideItems | schemavalidator.cpp:345-435 | inside an armed report's value, the items of an array are copied in turn and the index advances as the tracker counts |
| ReportRouting.MemberValue | schemavalidator.cpp:345-435 | the member a key has just armed: the report receives the member's value, and the recheck after it disarms the report |
| ReportRouting.SearchValue | schemavalidator.cpp:308-435 | with nothing armed and no report's value enclosing the location, the outputs grow exactly as `Collect` says and nothing is left armed |
| ReportRouting.SearchFields | schemavalidator.cpp:308-343 | a key that completes a report's path arms the first such report, which gets the indexed location and then the value; other members are searched in turn |
| ReportRouting.SearchItems | schemavalidator.cpp:345-435 | with nothing armed, an array's items are searched in turn |
| ReportRouting.DocumentRouting | schemavalidator.cpp:308-435 | a whole document read from the start with nothing armed ends back at the start with nothing armed, and every report's output grows exactly as `Collect` routes the members on its path |
| ReportRouting.ConfiguredReportsOk | schemavalidator.cpp:258-279 | every configured report's path ends in a name that is neither "" nor "[]" |
| ReportRouting.SplitDocument | schemavalidator.cpp:727-757 | a handler created for the schema, fed every event of a document and then closed: one output per configured report, each the opening call, what `Collect` routes to that report, then the closing call |
| ErrorMessages.GetString | schemavalidator.cpp:31-53 | null and containers give ""; booleans give "true"/"false" according to their value |
| ErrorMessages.Renders | schemavalidator.cpp:79-88 | each array item is rendered as `GetString` renders it, in order |
| ErrorMessages.NumberInsertReadsBack | schemavalidator.cpp:38-45 | an integer insert is rendered in decimal digits that read back as the number |
| ErrorMessages.ArrayInsertSplitsBack | schemavalidator.cpp:79-88 | an array insert is its items rendered, in order, joined by "," |
| ErrorMessages.SubstituteWithoutPlaceholders | schemavalidator.cpp:69-95 | a template without "%" is printed unchanged |
| ErrorMessages.FirstPlaceholderReplaced | schemavalidator.cpp:72-94 | only the first occurrence of "%name" is replaced by the insert |
| ErrorMessages.Indent | schemavalidator.cpp:97 | `2*depth` spaces |
| ErrorMessages.IndentedDeeper | schemavalidator.cpp:97-113 | lines indented for a deeper level are indented for this one |
| ErrorMessages.Labelled | schemavalidator.cpp:97-107 | the indentation followed by the text |
| ErrorMessages.Block | schemavalidator.cpp:97-107 | every line of a block carries the block's indentation |
| ErrorMessages.BlockShape | schemavalidator.cpp:99-107 | the name line, then the message line; a Context line exactly when depth > 0 |
| ErrorMessages.CreateErrorMessages | schemavalidator.cpp:141-162 | all lines are indented by at least `2*depth` |
| ErrorMessages.RuleErrors | schemavalidator.cpp:144-161 | the lines for a report's rules are indented by at least `2*depth` |
| ErrorMessages.RecordsErrors | schemavalidator.cpp:150-155 | an array of records prints each record in turn, indented by at least `2*depth` |
| ErrorMessages.RecordLines | schemavalidator.cpp:62-107 | a record's own block is indented by at least `2*depth` |
| ErrorMessages.ChildErrors | schemavalidator.cpp:111-135 | the child errors, under an array or an object, are indented by at least `2*depth` |
| ErrorMessages.ChildItems | schemavalidator.cpp:115-124 | the children in an array are indented by at least `2*depth` |
| ErrorMessages.ChildValues | schemavalidator.cpp:125-134 | the children under an object's members are indented by at least `2*depth` |
| ErrorMessages.SubstituteAppend | schemavalidator.cpp:69-95 | substituting the inserts of two runs of members is substituting the first run, then the second |
| ErrorMessages.AbsentPlaceholderKept | schemavalidator.cpp:74-76 | a member whose "%name" does not occur in the message leaves the message unchanged |
| ErrorMessages.TwoPlaceholders | schemavalidator.cpp:69-95 | a template with two placeholders, and no other "%", gets both inserts in place and nothing else changes |
| ErrorMessages.MultipleOfExample | schemavalidator.cpp:66-107 | the `multipleOf` error with `actual` 7 and `expected` 3 prints "Number '7' is not a multiple of the 'multipleOf' value '3'." with its instance and schema lines |
| ErrorMessages.RecordsErrorsAppend | schemavalidator.cpp:150-155 | printing two runs of records is printing each run in turn |
| ErrorMessages.ChildItemsAppend | schemavalidator.cpp:115-124 | printing two runs of child errors in an array is printing each run in turn |
| ErrorMessages.ChildValuesAppend | schemavalidator.cpp:125-134 | printing two runs of child errors under an object's members is printing each run in turn |
| ErrorMessages.ObjectChildrenAsArray | schemavalidator.cpp:111-135 | child errors under an object's members print exactly as the same values in an array would |
| ErrorMessages.ContentErrors | schemavalidator.cpp:148-160 | a rule whose value is neither an array nor an object prints nothing |
| ErrorMessages.HandleError | schemavalidator.cpp:60-137 | prints nothing exactly for an empty record |
| ErrorMessages.NestedErrors | schemavalidator.cpp:111-135 | without an "errors" member there are no child lines |
| ErrorMessages.RecordBlockShape | schemavalidator.cpp:62-107 | a record's block names the rule, then gives the code's template with the inserts substituted; a Context line exactly when nested |
| ErrorMessages.RulesInOrder | schemavalidator.cpp:144-161 | rules are printed in member order: printing a concatenation is printing each part in turn |
| ErrorMessages.RuleErrorsAppend | schemavalidator.cpp:144-161 | printing two runs of rules is printing each run in turn |
| ErrorMessages.PlainRecord | schemavalidator.cpp:62-107 | a childless record with no placeholders prints as its block |
| ErrorMessages.SingleRule | schemavalidator.cpp:156-160 | a rule whose value is one record prints as that record |
| ErrorMessages.ParentRecord | schemavalidator.cpp:60-135 | any record with an "errors" member, at any depth and context: its block (the code's template with the inserts substituted, the instance and schema references), then its children one level deeper with the record's name as context |
| ErrorMessages.TwoChildren | schemavalidator.cpp:115-124 | child errors in an array print in order, with the parent rule as context |
| ErrorMessages.RecordWithTwoChildren | schemavalidator.cpp:60-135 | a record with two child errors prints its block, then both children one level deeper, with the record's name as context |
| ErrorMessages.BranchExample | schemavalidator.cpp:60-162 | a `type` failure nested under `oneOf` prints its six lines indented by two spaces |
| ErrorMessages.ParentPrinted | schemavalidator.cpp:60-162 | a rule with two children: the rule's block at the margin, then each child's lines one level in, with the rule as context |
| ErrorMessages.OneOfExample | schemavalidator.cpp:60-162 | a `oneOf` failure with two `type` branches prints the exact expected lines |
| DownloadUtils.SearchFrom | src/utils.ts:67 | the regular-expression search succeeds exactly when some position holds the extension followed by '?' or by the end of the URL |
| DownloadUtils.IsGzip | src/utils.ts:63-69 | true for the two gzip types whatever the URL; for octet-stream, exactly when ".gz" is followed by '?' or the end; false for every other type |
| DownloadUtils.IsZip | src/utils.ts:71-76 | true for `application/zip`; for octet-stream, exactly when ".zip" is followed by '?' or the end; false otherwise |
| DownloadUtils.HasExtension | src/utils.ts:63-76 | true exactly when some position holds the extension followed by '?' or the end |
| DownloadUtils.ExtensionBeforeQuery | src/utils.ts:67 | a path ending with the extension qualifies, with or without a query |
| DownloadUtils.NoQueryMeansSuffix | src/utils.ts:67 | with no '?' in the URL, the test holds exactly when the URL ends with the extension |
| DownloadUtils.GzipDownloadExamples | test/DownloadManager.test.ts:172-189 | `data.gz` and `data.gz?Expires=123456&mode=true` served as octet-stream are gzip |
| DownloadUtils.OtherExtensionExamples | src/utils.ts:63-76 | `data.gzip` is not gzip; `data.gz` is not zip |
| DownloadUtils.RunLength | src/utils.ts:103-111 | the digit run `parseInt` reads is maximal |
| DownloadUtils.ParseMagnitude | src/utils.ts:103-111 | an unsigned number that is read is never negative |
| DownloadUtils.ParseIntReadsDecimal | src/utils.ts:104 | `parseInt` of a decimal number's text gives that number |
| DownloadUtils.ParseIntUnpadded | src/utils.ts:104 | without leading space, an unsigned text is read as its magnitude and '-' negates |
| DownloadUtils.ParseIntUndefined | src/utils.ts:104 | a missing page argument (`parseInt(undefined)`) is NaN |
| DownloadUtils.ParseCommand | src/utils.ts:90-116 | a pick exactly for a single decimal digit, whose value is the digit |
| DownloadUtils.CommandCaseIgnored | src/utils.ts:91-102 | `NEXT` and `Previous` are recognised; `nex` is not |
| DownloadUtils.GoReadsPageNumber | src/utils.ts:103-104 | `g X` and `go X` carry the number X; with no argument, NaN |
| DownloadUtils.MaxPageHoldsLastEntry | src/utils.ts:81 | `floor((n-1)/10)` is -1 for no entries, else the page holding the last entry |
| DownloadUtils.TurnStaysInRange | src/utils.ts:91-116 | no command leaves the page range; `go X` moves to X-1 exactly when 1 <= X <= maxPage+1; otherwise, like an unrecognised command, it changes nothing |
| DownloadUtils.NextThenPrevious | src/utils.ts:91-102 | next then previous returns to the page before |
| DownloadUtils.PageItems | src/utils.ts:85-121 | at most ten entries, starting at `page*10`, in order; fewer only at the end of the list |
| DownloadUtils.SessionPagesInRange | src/utils.ts:90-122 | every page the loop shows exists |
| DownloadUtils.PickChoosesLabelledEntry | src/utils.ts:110-123 | digit d picks `entries[page*10+d]`, the entry shown with label d; past the end the selection fails |
| DownloadUtils.MenuHintsOffered | src/utils.ts:131-141 | previous exactly when page > 0, next exactly when page < maxPage, go exactly when maxPage > 0, in that order |
| DownloadUtils.ItemLines | src/utils.ts:128-130 | one `(k): item` line per item, labels from 0 |
| DownloadUtils.LabelsMatchPicks | src/utils.ts:110-129 | the line shown with label d names the entry that digit d picks |
| DownloadUtils.ShowMenuOptions | src/utils.ts:126-142 | the counter line, the labelled items, then the hints pushed in order and joined with " \| " |
| DownloadUtils.TurnPage | src/utils.ts:91-116 | the non-picking branches move the page as `Turn` says |
| DownloadUtils.ChooseJsonFile | src/utils.ts:78-124 | the choice is how the session ends; the screens are the menus of the first page and of every page turned to, in order |
| SchemaManagement.MarkClosedEffect | src/SchemaManager.ts:79-82 | closing succeeds exactly on objects and arrays; an object gets `additionalProperties` false and keeps its other members |
| SchemaManagement.CloseAllEach | src/SchemaManager.ts:81-83 | the loop succeeds exactly when every value can be closed, and then holds each value closed, in order |
| SchemaManagement.CloseAllStops | src/SchemaManager.ts:81-83 | the first value that throws ends the loop with its error |
| SchemaManagement.CloseAll | src/SchemaManager.ts:81-83 | a loop that succeeds keeps one value per key |
| SchemaManagement.MarkClosedTwice | src/SchemaManager.ts:82 | closing a closed value again changes nothing |
| SchemaManagement.CloseAllTwice | src/SchemaManager.ts:81-83 | running the loop over its own result changes nothing |
| SchemaManagement.MakeSchemaStrict | src/SchemaManager.ts:77-86 | the method computes `StrictSchema` |
| SchemaManagement.CloseEach | src/SchemaManager.ts:81-83 | the key loop computes `CloseAll` |
| SchemaManagement.StrictNonObject | src/SchemaManager.ts:78 | only null throws; a non-object value is left untouched |
| SchemaManagement.StrictClosesTop | src/SchemaManager.ts:79 | the result has `additionalProperties` false; members other than that and `definitions` are unchanged |
| SchemaManagement.StrictClosesDefinitions | src/SchemaManager.ts:75-84 | each direct value of an object or array `definitions` is closed, with names in order and nothing deeper changed; any other `definitions` is unchanged |
| SchemaManagement.StrictFails | src/SchemaManager.ts:80-84 | an object throws exactly when its `definitions` holds null or a primitive |
| SchemaManagement.StrictIdempotent | src/SchemaManager.ts:77-86 | making a strict schema strict again changes nothing |
| SchemaManagement.ParseTagsClean | src/SchemaManager.ts:33-36 | every tag read is non-empty and trimmed |
| SchemaManagement.NonEmptyKeeps | src/SchemaManager.ts:36 | the filter keeps only non-empty input lines |
| SchemaManagement.TrimAllTrimmed | src/SchemaManager.ts:35 | lines that are already trimmed pass the trimming step unchanged |
| SchemaManagement.NonEmptyDropsBlankLine | src/SchemaManager.ts:36 | the empty line after git's last newline is dropped and the tags are kept in order |
| SchemaManagement.ParseTagListing | src/SchemaManager.ts:33-36 | reading back a listing of tags, one per line, gives the tags in order |
| SchemaManagement.CacheFileNameDistinct | src/SchemaManager.ts:53-56 | the cache name determines the strictness and the version text, so a cached file is only handed out for its own request |
| SchemaManagement.SchemaManager.UseVersion | src/SchemaManager.ts:26-50 | the current version: true, no command, no change; otherwise list the tags; a listed tag is checked out and becomes the version; an unlisted one prints the tags, returns false and leaves the version alone |
| SchemaManagement.SchemaManager.UseSchema | src/SchemaManager.ts:52-72 | an existing cache file is returned unwritten; otherwise the schema is written there, strictified when `strict` is set and verbatim otherwise; a missing file, bad JSON or a failing strictification throws and writes nothing |
| SchemaManagement.UseSchemaTwice | src/SchemaManager.ts:57-70 | the second request for the same schema is served from the cache and writes nothing |

## Left out

- Everything outside the named core is not part of this model:
  - `main` of `schemavalidator.cpp`: argument parsing, file opening, the reader loop and exit codes;
  - the download manager, the Docker manager, the commands, the logger and the entry point;
  - `getEntryFromZip`, `appendResults`, and the `assess*`/`validate*` helpers of `src/utils.ts`;
  - `ensureRepo`;
  - the Java wrapper and the reference implementation.
- The JSON library:
  - The schema validator itself is not part of this model.
  - The code-to-template table is the `template` parameter of `Library`.
  - The pretty-printed report text is not modelled. Reports are sequences of writer calls.
  - The buffers, streams and file handles of the handler's constructor and `CleanupWriter` are not modelled.
- The handler's `state_` field is never read, so it is not modelled.
- Floating point:
  - Doubles are opaque 64-bit patterns.
  - Their text in error inserts is the `showDouble` parameter.
  - The `IsFloat` branch of `GetString` is covered by that parameter.
- The four integer callbacks (`Int`, `Uint`, `Int64`, `Uint64`) share their body with the other scalar callbacks. They are one scalar case with an unbounded integer, because the handler never looks at the value.
- `SchemaValidator.MessageHandler.EndArray`: requires at least two frames. Popping an empty `std::list` is undefined, and the reader never delivers an unbalanced array close.
- `PathTracker.DocumentReturnsToStart`: requires that no member is named "" or "[]". For those names, `StartObject` pushes nothing while `EndObject` still pops, so the stacks lose their pairing. `PathTracker.EmptyKeyObjectAdvancesIndexTwice` shows the effect. The model keeps this behaviour as written.
- `SchemaValidator.MessageHandler.Key`: the key is read as a C string (`string(str)` at schemavalidator.cpp:310), so a key holding a NUL character is cut at that character. The model passes the whole key on.
- `SchemaValidator.MessageHandler.Scalar`: the string callback forwards the value as a C string (`reportWriter->String(str)`), so a string value holding a NUL character is cut there. The model passes the whole value on.
- Integers beyond the 64-bit range are held by the JSON library as doubles. The model's integers are unbounded, so such a number stays an integer here.
- `ReportRouting.SplitDocument`: the schema validator sits between the reader and the handler, and in fail-fast mode it stops forwarding events at the first schema error. The model feeds every event of the document to the handler, as happens when the document is valid or errors are collected.
- `ReportRouting.DocumentRouting`: requires that no member is named "" or "[]", for the reason given for `PathTracker.DocumentReturnsToStart`.
- `ErrorMessages.CreateErrorMessages`: requires a well-formed error value. Its records must hold an integer `errorCode` and string `instanceRef`/`schemaRef`, as the validator always produces; the library asserts on anything else.
- `DownloadUtils.ChooseJsonFile`: the prompt loop is driven by a finite list of typed lines.
  - When the input runs out, the loop ends with `NoSelection`, whereas the original keeps prompting.
  - Splitting a typed line into words is not modelled.
- The logger's messages are not modelled (the entry-count line and the menu messages):
  - "Already at last page.";
  - "Already at first page.";
  - "Can't go to that page.";
  - "Unrecognized command.";
  - "You selected: ...".
- Picking a digit with no entry on the page reads a property of `undefined`, which throws. The model returns this as `SelectionFailed`.
- `parseInt` is modelled for decimal and `0x` hexadecimal text.
  - Numbers beyond JavaScript's exact integer range are not rounded.
  - `Infinity` and exponents do not arise, because `parseInt` reads only digits.
- `SchemaManagement.SchemaManager.UseVersion`:
  - `git` runs are recorded as commands, and the tag list is the `tagOutput` parameter.
  - A failing `git` call (a rejected promise) is not modelled.
- `SchemaManagement.SchemaManager.UseSchema`:
  - The temporary directory is a constructor parameter.
  - `path.join` is plain "/" concatenation without normalisation.
  - `JSON.parse` and `JSON.stringify` are parameters.
  - Parsed objects are assumed to have unique member names, as `JSON.parse` produces. Under a duplicate name, `Get` would see the first occurrence where JavaScript keeps the last.
  - The test suite expects `null` for a missing schema, but the code throws. The model follows the code (`Err`).
  - The test suite also sets a `strict` property that the class does not have. The model follows the code: strictness is `useSchema`'s parameter.
- `makeSchemaStrict` assigns `additionalProperties` on an array value. `JSON.stringify` never writes that property, so the model leaves array values unchanged.
- Setting a property on null or on a primitive throws in module (strict-mode) code. The model returns this as `Err`.
- Member order of JavaScript objects whose keys look like array indices (such keys are listed first) is not modelled. Keys keep their insertion order.
