# anothercrm core, modelled in Dafny

This project models the core logic of a small tailoring CRM: the project board, the amount-in-words converters used on invoices, list-view query persistence, the client-creation endpoint, and the database constraints they depend on. It then proves properties of that model.

- `wrappers.dfy` (`Wrappers`): the `Option` datatype.
- `text.dfy` (`Text`): the JavaScript string operations the converters use, on `seq<char>`:
  - `trim` (`Trim`, over the WhiteSpace and LineTerminator characters that `String.prototype.trim` removes);
  - joining words with single spaces (`Join`);
  - upper-casing the first character (`UpperFirst`, including the Latvian letters);
  - `${n}` for a natural number (`DecimalString`, with its inverse `DecimalValue`);
  - an array lookup that reads `"undefined"` out of range (`Lookup`).
- `schema.dfy` (`Schema`): the record shapes of the tables in `src/lib/server/db/schema.ts`, with these parts:
  - their CHECK and UNIQUE constraints as predicates;
  - inserts that apply the column defaults and refuse a row that breaks a constraint.
- `board.dfy` (`ProjectBoard`): `getProjectBoardData` and `getHiddenTabIds`. The database reads become input sequences:
  - the tab table, the preference table, the user table and the task table;
  - the tab groups with their tabs and translations, in the order the store returns them.

  What the model keeps:
  - a pure scope filter for the tasks;
  - the distribution loop, as a method over a personal list and a `map<int, seq<BoardTask>>` (the `tasksMap`);
  - the two column-emission loops, as methods.

  Each method is proved against a specification function (`Bucket`, `MapsBuckets`, `SlotColumns`, `GroupColumns`). The board properties are lemmas about those functions.
- `number_to_words.dfy` (`NumberToWords`): `numberToWordsLV` and `numberToWordsEN`, written as in the source.
  - Each is paired with a reference word list.
  - For every amount of at least one euro, a lemma proves that the output is the capitalised single-space join of that list, followed by the currency tail. Amounts below one euro have a fixed form, stated as a contract.
  - The as-written English converter has one exception: from a million euros on, when the thousands group is zero, its output holds a stray "thousand" (`EnZeroThousandsAsWritten`). Everywhere else it equals the join (`EnAgreesOutsideZeroThousands`).
  - The English converter has a second, corrected definition; see "Findings".
- `param_state.dfy` (`ParamState`): `handleListParams` as a method over a `CookieJar` class whose `map` field `cookies.set` updates. The redirect the source throws is a result variant.
- `client_api.dfy` (`ClientApi`): the POST handler of `/api/clients` as a function from the parsed body to the response. The accepted rows are proved to satisfy the clients CHECK constraint.

This revision of `src/lib/server/queries/projekti.ts` has no "show all" view, no title search, no filter on done tasks and no fallback to a default tab. A client's group columns are always empty (lines 198-206). An admin task placed in a tab outside every fetched group goes into `tasksMap` but is never shown (lines 172-192).

## Model

| member | source | states |
|---|---|---|
| `ProjectBoard.HiddenIffPreference` | src/lib/server/queries/projekti.ts:15-21 | A tab is hidden iff the viewer has a preference for it with isVisible false. With no preference it is not hidden. With one preference per (user, tab), that record alone decides. |
| `ProjectBoard.FindPersonalTab` | src/lib/server/queries/projekti.ts:28-32 | None iff no tab belongs to the viewer. Otherwise it is the first tab in table order whose userId is the viewer's. |
| `ProjectBoard.ClientUserIds` | src/lib/server/queries/projekti.ts:62-66 | An id is listed iff some user of type 'client' has it. |
| `ProjectBoard.CreatorType` | src/lib/server/queries/projekti.ts:53-57 | The role of a user whose id is the task's createdById. None iff no user has that id. |
| `ProjectBoard.FetchTasksIff` | src/lib/server/queries/projekti.ts:61-93 | A task is fetched iff it is a task row in the viewer's scope. It is fetched with its creator's role. |
| `ProjectBoard.ScopeByRole` | src/lib/server/queries/projekti.ts:61-92 | An admin sees tasks created by them, assigned to them, or created by any client-type user. A client sees tasks created by or assigned to them. isDone plays no part. |
| `ProjectBoard.FindLanguage` | src/lib/server/queries/projekti.ts:116 | The index of the first translation in the locale. None iff there is none. |
| `ProjectBoard.ResolveName` | src/lib/server/queries/projekti.ts:116-119 | With no translations, the name is the fallback. Otherwise it is the fallback or the non-empty name of one of the translations. |
| `ProjectBoard.ResolveNameOrder` | src/lib/server/queries/projekti.ts:187-190 | With one translation per language, the locale's translation gives the name. Without one, the first translation does. An empty name gives the fallback. |
| `ProjectBoard.Target` | src/lib/server/queries/projekti.ts:139-167 | The target is dropped iff the task is an admin's non-intake task in a hidden tab. Client and intake tasks target the personal tab or 0. Other admin tasks target their own tab. |
| `ProjectBoard.TargetOf` | src/lib/server/queries/projekti.ts:139-167 | The loop's `targetId` and its early return, which agree with `Target`. |
| `ProjectBoard.PlaceFacts` | src/lib/server/queries/projekti.ts:169-174 | Only an admin's task goes to a tab entry: its own tab, neither hidden, nor 0, nor the personal tab. A task is dropped exactly when it is an admin's regular task in a hidden tab. |
| `ProjectBoard.ClientPlacement` | src/lib/server/queries/projekti.ts:141-146 | Every task of a client viewer goes to the personal column. |
| `ProjectBoard.IntakePlacement` | src/lib/server/queries/projekti.ts:153-159 | For an admin, a client-created unassigned task goes to the personal column, whatever its tab and whether that tab is hidden. |
| `ProjectBoard.RegularPlacement` | src/lib/server/queries/projekti.ts:160-174 | For an admin, any other task in a hidden tab is dropped. Otherwise it goes to the personal column when its tab is 0 or the personal tab, and to its tab's entry else. |
| `ProjectBoard.BucketAppend` | src/lib/server/queries/projekti.ts:138-175 | The tasks placed at one place keep fetch order: bucketing distributes over concatenation. |
| `ProjectBoard.BucketIff` | src/lib/server/queries/projekti.ts:138-175 | A task is in the bucket of a place iff it is fetched and placed there. |
| `ProjectBoard.BucketAll` | src/lib/server/queries/projekti.ts:141-146 | When every task is placed at one place, that bucket is every task, in order. |
| `ProjectBoard.MapsBucketsStep` | src/lib/server/queries/projekti.ts:171-174 | Pushing a tab-placed task onto its entry (created if missing) keeps every map entry equal to its tab's bucket, with no empty entry. |
| `ProjectBoard.DistributeStep` | src/lib/server/queries/projekti.ts:169-174 | One pass of the loop adds the task to the personal list or to its tab's entry, or drops it, and keeps the loop invariant. |
| `ProjectBoard.Distribute` | src/lib/server/queries/projekti.ts:138-175 | The personal list is the personal bucket. A map entry exists exactly for the tabs some task is placed in, and it holds that tab's bucket. |
| `ProjectBoard.SlotColumns` | src/lib/server/queries/projekti.ts:187-193 | One column per slot. |
| `ProjectBoard.SlotColumnAt` | src/lib/server/queries/projekti.ts:187-193 | The k-th tab column is the column of the k-th slot's tab, holding the tasks placed in that tab. |
| `ProjectBoard.SlotColumnsAppend` | src/lib/server/queries/projekti.ts:182-195 | Tab columns split over concatenated slots. |
| `ProjectBoard.EmitTabStep` | src/lib/server/queries/projekti.ts:184-193 | The next tab adds its column, with its tasks from the map, exactly when it is neither hidden nor the personal tab. |
| `ProjectBoard.EmitGroupTabColumns` | src/lib/server/queries/projekti.ts:183-194 | The inner loop yields the tab columns of the group's slots. |
| `ProjectBoard.EmitTabColumns` | src/lib/server/queries/projekti.ts:180-195 | The admin loops yield the tab columns of all slots, group by group, with each tab's bucket. |
| `ProjectBoard.EmitGroupColumns` | src/lib/server/queries/projekti.ts:197-206 | The client loop yields one column per group, in group order. |
| `ProjectBoard.GetProjectBoardData` | src/lib/server/queries/projekti.ts:23-213 | The builder returns the board of `BoardData` for the table contents. |
| `ProjectBoard.GroupSlotsMember` | src/lib/server/queries/projekti.ts:183-185 | A slot is in a group's slots iff it names a tab of that group, at its own index, that is neither hidden nor the personal tab. |
| `ProjectBoard.GroupSlotsOrdered` | src/lib/server/queries/projekti.ts:183 | A group's slots follow tab order. |
| `ProjectBoard.SlotsMember` | src/lib/server/queries/projekti.ts:182-185 | A slot is in the admin's slots iff it names a tab of the groups that is neither hidden nor the personal tab. |
| `ProjectBoard.SlotsOrdered` | src/lib/server/queries/projekti.ts:182-183 | The admin's slots follow group order, then tab order. |
| `ProjectBoard.SlotsShape` | src/lib/server/queries/projekti.ts:182-195 | Every slot names an emitted tab of the groups. Slots are ordered by group, then tab. Every emitted tab has a slot. |
| `ProjectBoard.ColumnsFollowSortOrder` | src/lib/server/queries/projekti.ts:98-107 | With groups and tabs fetched by sortOrder, the admin's tab columns follow group sortOrder, and tab sortOrder within a group. |
| `ProjectBoard.ColumnTasks` | src/lib/server/queries/projekti.ts:170-192 | The first column holds exactly the personal tasks. An admin's later column holds exactly the tasks placed in its tab. A client's later column holds none. |
| `ProjectBoard.SlotAt` | src/lib/server/queries/projekti.ts:182-185 | A slot names a tab of the groups at its positions that is not hidden and not the personal tab. |
| `ProjectBoard.SlotFor` | src/lib/server/queries/projekti.ts:182-185 | Every emitted tab has its slot. |
| `ProjectBoard.AdminColumnAt` | src/lib/server/queries/projekti.ts:178-193 | An admin's column i > 0 belongs to slot i-1. |
| `ProjectBoard.SlotIdsUnique` | src/lib/server/queries/projekti.ts:182-193 | With unique tab ids, two slots for the same tab are one slot. |
| `ProjectBoard.AtMostOneColumn` | src/lib/server/queries/projekti.ts:138-206 | With unique tab ids, a task is in at most one column. |
| `ProjectBoard.AdminIntake` | src/lib/server/queries/projekti.ts:153-159 | For an admin, an intake task is in the personal column and in no other. |
| `ProjectBoard.AdminHidden` | src/lib/server/queries/projekti.ts:160-165 | For an admin, a regular task in a hidden tab is in no column. |
| `ProjectBoard.TabTaskColumn` | src/lib/server/queries/projekti.ts:171-192 | A task placed in a tab shows only in that tab's column, and only when the tab is one of the groups' tabs. |
| `ProjectBoard.TabTaskShown` | src/lib/server/queries/projekti.ts:182-192 | A fetched task placed in a tab of the groups shows in that tab's column. |
| `ProjectBoard.OrphanTask` | src/lib/server/queries/projekti.ts:171-174 | A task placed in a tab outside every fetched group shows in no column. |
| `ProjectBoard.PersonalColumnFirst` | src/lib/server/queries/projekti.ts:115-133 | The first column is the only personal one. Without a personal tab it is {0, "Inbox", "#000000"}. Otherwise it has the tab's id and color, and "My Tasks" when the tab has no translation. |
| `ProjectBoard.ClientBoard` | src/lib/server/queries/projekti.ts:197-206 | A client's board is the personal column holding every fetched task, then one white, empty column per group, in group order. |
| `ProjectBoard.AdminColumns` | src/lib/server/queries/projekti.ts:180-195 | An admin's board is one column per slot. None is hidden or the personal tab. Every other tab of the groups has a column. |
| `ProjectBoard.BoardShowsScopedTasks` | src/lib/server/queries/projekti.ts:61-212 | Every task on the board is a task row in the viewer's scope, with its creator's role. |
| `NumberToWords.NumberToWordsLV` | src/lib/numberToWords.ts:9-12 | Zero euros gives exactly "nulle eiro un {cents} centi", uncapitalised. Every output ends in " un {cents} centi". |
| `NumberToWords.LvLookupWords` | src/lib/numberToWords.ts:2-4 | The table entries used as words are single words. An entry outside a table reads "undefined". |
| `NumberToWords.ChunkWordsLVAreWords` | src/lib/numberToWords.ts:14-33 | The words of a group are single words, and there are none exactly for zero. |
| `NumberToWords.HundredsPieceLV` | src/lib/numberToWords.ts:22-24 | The hundreds piece is units[h] then "simts" for h = 1, "simti" otherwise, each followed by a space. |
| `NumberToWords.RestPieceLV` | src/lib/numberToWords.ts:26-31 | A tens digit of 1 gives teens[u]. Otherwise tens[t] and units[u] are given for the non-zero digits. |
| `NumberToWords.ChunkLVIsJoin` | src/lib/numberToWords.ts:14-33 | The Latvian convertChunk is the single-space join of its reference words. |
| `NumberToWords.ThousandsWordsLV` | src/lib/numberToWords.ts:40-44 | A non-zero thousands group is followed by "tūkstotis" when it is 1 and by "tūkstoši" otherwise, then the remainder. |
| `NumberToWords.EuroWordsLVIsJoin` | src/lib/numberToWords.ts:35-46 | The trimmed euro words are the single-space join of the reference words. |
| `NumberToWords.NumberToWordsLVIsJoin` | src/lib/numberToWords.ts:37-50 | With euros > 0, the output is the capitalised join of the reference words, then " eiro un {cents} centi". |
| `NumberToWords.LvWordsInVocabulary` | src/lib/numberToWords.ts:2-4 | Below a million euros every word comes from the tables or is simts, simti, tūkstotis or tūkstoši. |
| `NumberToWords.LvFirstWordUndefined` | src/lib/numberToWords.ts:18-23 | From a million euros on, units[h] is out of range for the thousands group, so the first reference word is "undefined". |
| `NumberToWords.LvMillionsUndefined` | src/lib/numberToWords.ts:37-50 | From a million euros on, the Latvian output begins "Undefined". |
| `NumberToWords.EnLookupWords` | src/lib/numberToWords.ts:54-56 | The English table entries used as words are single words. An entry outside a table reads "undefined". |
| `NumberToWords.TensWordENIsWord` | src/lib/numberToWords.ts:64-66 | The hyphenated tens word for 20..99 is one word. |
| `NumberToWords.ChunkWordsENAreWords` | src/lib/numberToWords.ts:61-68 | The words of an English group are single words, and there are none exactly for zero. |
| `NumberToWords.ChunkENIsJoin` | src/lib/numberToWords.ts:61-68 | The recursive convertChunk is the single-space join of its words: ones[n] below 20, a hyphenated tens word below 100, else "{ones} hundred" and the rest. |
| `NumberToWords.NumberToWordsEN` | src/lib/numberToWords.ts:53-86 | Zero euros gives exactly "Zero euros and {cents} cents". Otherwise the output ends with the unit word and " and {cents} cent(s)". |
| `NumberToWords.EnCentWord` | src/lib/numberToWords.ts:70-72 | The output ends in " cent" iff there are euros and exactly one cent. In every other case it ends in " cents", including one cent with zero euros. |
| `NumberToWords.EnEuroWord` | src/lib/numberToWords.ts:82 | With euros > 0, the unit is "euro" iff euros = 1, and "euros" otherwise. |
| `NumberToWords.EnZeroThousandsAsWritten` | src/lib/numberToWords.ts:75-85 | From a million euros on with a zero thousands group, the output is the millions words, "million", two spaces, "thousand", then the rest. |
| `NumberToWords.EnAgreesOutsideZeroThousands` | src/lib/numberToWords.ts:75-81 | Outside that case the as-written converter equals the corrected one. |
| `NumberToWords.EnMillionCounterexample` | src/lib/numberToWords.ts:75-85 | For 100000000 cents the output is "One million  thousand euros and 0 cents"; the corrected converter gives "One million euros and 0 cents". |
| `NumberToWords.EuroWordsENCorrectedIsJoin` | src/lib/numberToWords.ts:74-81 | The corrected euro words, trimmed, are the single-space join of the reference words with zero groups left out. |
| `NumberToWords.NumberToWordsENCorrected` | src/lib/numberToWords.ts:53-86 | Zero euros gives exactly "Zero euros and {cents} cents". Otherwise the output is the capitalised join of the reference words, then the unit and cents tail. |
| `Text.Trim` | src/lib/numberToWords.ts:32 | The result is a slice of the input with only whitespace before and after it. It has no whitespace at either end, and it is the input itself when the input is trimmed. |
| `Text.JoinEnds` | src/lib/numberToWords.ts:32 | A single-space join of words is trimmed and starts with the first word and ends with the last. |
| `Text.DecimalString` | src/lib/numberToWords.ts:47 | Cents are printed as unpadded decimal digits, with a leading 0 only for zero. |
| `Text.DecimalRoundTrip` | src/lib/numberToWords.ts:83 | Reading the printed digits back gives the number. |
| `Text.UpperFirst` | src/lib/numberToWords.ts:50 | Only the first character changes, and it is upper-cased. |
| `ParamState.CookieJar.constructor` | src/lib/server/paramState.ts:15 | The jar starts with the request's cookies. |
| `ParamState.CookieJar.Set` | src/lib/server/paramState.ts:27-32 | cookies.set writes the one cookie and leaves the others alone. |
| `ParamState.HandleListParams` | src/lib/server/paramState.ts:13-54 | The result and the new cookie jar are those of `Outcome` and `NextJar` for the jar before the call. |
| `ParamState.QuerySaved` | src/lib/server/paramState.ts:24-33 | A visit with a query returns its parameters and saves it, with the one-year, site-wide options. |
| `ParamState.NoQueryNoWrite` | src/lib/server/paramState.ts:34-50 | A visit without a query writes nothing. |
| `ParamState.OtherCookiesKept` | src/lib/server/paramState.ts:27 | No visit touches another cookie. |
| `ParamState.NothingSaved` | src/lib/server/paramState.ts:52-53 | With no query and nothing saved, the parameters are empty. |
| `ParamState.SaveThenRedirect` | src/lib/server/paramState.ts:40-43 | After a visit that saved q, a bare visit to the root (with or without a trailing slash) is redirected 303 to the root with q. |
| `ParamState.SaveThenSubRoute` | src/lib/server/paramState.ts:44-48 | After a visit that saved q, a bare visit to a sub-route gets q without a redirect. |
| `ParamState.RedirectSettles` | src/lib/server/paramState.ts:36-43 | A redirect goes to the saved query. Following it returns those parameters without a second redirect and keeps the saved query. |
| `ParamState.VisitIdempotent` | src/lib/server/paramState.ts:19-53 | Repeating a visit gives the same outcome and leaves the jar as the first visit left it. |
| `ClientApi.ParseClientType` | src/lib/server/db/schema.ts:26 | The enum column accepts exactly "BTC" and "BTB". |
| `ClientApi.Post` | src/routes/api/clients/+server.ts:7-55 | A body that is not JSON gets 500. A missing or empty name gets 400 "Name is required". Then missing email and phone get 400 "Email or Phone is required". Creation happens iff both checks pass and the type is accepted. The created row satisfies the CHECK, carries the name, has the given type or BTC, and has VAT rate 21. |
| `ClientApi.FieldsPassThrough` | src/routes/api/clients/+server.ts:35-48 | Every field other than the type passes through to the row unchanged. |
| `ClientApi.NameCheckedFirst` | src/routes/api/clients/+server.ts:25-30 | A body with neither name nor contact gets the name error. |
| `ClientApi.TypeDefaultsToBTC` | src/routes/api/clients/+server.ts:40 | An absent or empty type is stored as BTC. |
| `Schema.InsertUser` | src/lib/server/db/schema.ts:48-54 | An insert is refused iff the id, email or name is taken. Otherwise it appends exactly the given row, whose type defaults to 'client', and keeps the table unique. |
| `Schema.InsertTab` | src/lib/server/db/schema.ts:381-399 | A tab is accepted iff it has a user or a group. It defaults to sortOrder 0 and color "#FFFFFF". |
| `Schema.InsertPreference` | src/lib/server/db/schema.ts:417-436 | An insert is refused iff (user, tab) already has a preference. Otherwise it appends exactly the given record, whose isVisible defaults to true, and the table stays unique. |
| `Schema.InsertTranslation` | src/lib/server/db/schema.ts:447-463 | An insert is refused iff the owner already has that language. Otherwise it appends the row and keeps the table unique. |
| `Schema.InsertTask` | src/lib/server/db/schema.ts:490-508 | isDone defaults to false, and every other field is kept. |
| `Schema.InsertClient` | src/lib/server/db/schema.ts:294-321 | A row is accepted iff it has an email or a phone. It defaults to type BTC and VAT rate 21, and every other field is kept. |
| `Schema.GrouplessTabIsPersonal` | src/lib/server/db/schema.ts:394-397 | A tab in no group belongs to a user. |
| `Schema.PreferenceUnique` | src/lib/server/db/schema.ts:434 | Two preferences for the same (user, tab) are the same record. |
| `Schema.TranslationUnique` | src/lib/server/db/schema.ts:362 | Two translations of one owner in one language are the same record. |

## Left out

- Database access: every `db.query.*` read is an input sequence. The ORM and SQL semantics of `inArray`, `or`, `findFirst` and `findMany` are not modelled: the task where-clause is a pure filter over all task rows, and `findFirst` is the first match in the given order.
- ColumnsFollowSortOrder: the model keeps whatever row order the store returns, and this lemma takes "fetched by sortOrder" as a hypothesis, because the ordering is the store's job (lines 102 and 106).
- Column projection and relation payloads: a fetched task carries the whole `Task` record and only its creator's role. The client and assignee names, the creator's name and `createdAt` are not modelled.
- The `translations` field of `ProjectBoardColumn` is never set by this code and is not modelled.
- AtMostOneColumn: it assumes unique tab ids across the groups, which the tab table's primary key and the one-group-per-tab relation give. The model does not derive this from the store.
- `URLSearchParams` parsing: a result carries the query string whose parameters the source returns, not a parsed parameter list.
- JSON parsing in the clients endpoint: `request.json()` is abstracted to an optional payload of optional strings. Non-string JSON values for these fields are not modelled.
- `console.error` in the clients endpoint is I/O and is left out.
- The database insert in the clients endpoint is `Schema.InsertClient`. The id the database assigns is a parameter, and a refused insert gives 500.
- Timestamps, foreign-key cascades and `$onUpdate` in the schema are database-engine behaviour, not logic.
- The tab group table's column defaults (sortOrder 0, color "#FFFFFF") are not modelled, because no core code inserts a group.
- Amounts in words take a natural number of cents. Negative, fractional and non-integer JavaScript numbers are not modelled.

## Findings

| source | as written | input that shows it | evidently intended | confidence | as-written member | corrected member |
|---|---|---|---|---|---|---|
| src/lib/numberToWords.ts:78-80 | For any amount of a million euros or more, " thousand " is emitted even when the thousands group is zero. The result has a stray "thousand" after two spaces. | 100000000 cents gives "One million  thousand euros and 0 cents" | "One million euros and 0 cents": a zero thousands group is skipped, as a zero millions group is | high, not executed | `NumberToWords.EnMillionCounterexample` | `NumberToWords.NumberToWordsENCorrected` |

Two more quirks are modelled as written and are not corrected:
- The Latvian converter reads "Undefined …" from a million euros on (`NumberToWords.LvMillionsUndefined`), because `units[h]` is out of range.
- The English zero-euro case says "cents" even for one cent (`NumberToWords.EnCentWord`).
