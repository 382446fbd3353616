# library-music, modelled in Dafny

library-music is a small REST service that keeps a catalogue of songs. Each
song has a title, a group, lyrics, a link and a release date. The tree holds
three revisions of its data-access and service logic. This project models the
core of all three and proves what each one promises:

- **The current record repository** (`internal/storage/music`):
  - a class `MusicStore.Store` over three tables: songs, groups by name, and
    one group link per song;
  - transactions that work on a copy of the tables and write it back only at
    commit;
  - `Add`, `Update` (with group relinking), `Delete`, and the reads;
  - the filter/query builder and the reflective partial-update builder, as
    imperative methods over predicate records.
- **The current service** (`internal/services/music`): translation of
  repository sentinels into service sentinels, mapping of rows for output,
  and lyrics paged by whole groups of `countVerse` verses.
- **The single-table revision:**
  - `internal/application/musicService.go`: one verse per page;
  - `internal/infrastructure/musicRepository.go`: the four-filter query
    builder.
- **The earliest revision** (`internal/storage/musicRepository.go`): its
  three-filter query builder, the group lookup-or-insert, and its
  two-statement delete.

Modelling choices:

- **Driver failures** are a parameter `faults: set<Step>`: the set of driver
  calls that report an error.
- **Reads take the rows the database returns, in its order**, as a parameter
  `scan`. The ghost predicate `MusicStore.IsListing` ties `scan` to the
  tables, because the queries have no ORDER BY.
- **SQL is kept as records**, `Condition(conn, column, param)`. Their meaning
  is given over a row (`Sql.Selects`). The builder's promise is then stated
  twice: as the syntactic shape (`Sql.Encodes`), and as "selects exactly the
  rows matching the filter".
- **Release dates are opaque**, with a distinguished zero value.

Files:

- `outcomes.dfy`: Option and Result.
- `models.dfy`: the record shapes.
- `sql.dfy`: predicate lists, rows, and LIMIT/OFFSET.
- `music_query.dfy`: generateQuery, addCondition and generateUpdateQuery.
- `music_store.dfy`: the repository and group.go.
- `store_properties.dfy`: lemmas about the repository.
- `verses.dfy`: Go's Split and Join on `"\n\n"`.
- `music_service.dfy`: the current service.
- `app_service.dfy`: the single-verse service.
- `infra_query.dfy`: the single-table query builder.
- `legacy_storage.dfy`: the earliest repository.

## Model

| member | source | states |
|---|---|---|
| Sql.EncodesExtend | internal/storage/music/music.go:279-307 | appending one set field's predicate (placeholder `$len(args)`, WHERE only if it is the first) and its argument extends an encoding of the filters by that filter |
| Sql.EncodesAt | internal/storage/music/music.go:314-320 | in an encoded list the k-th predicate is on the k-th filter's column with placeholder `$(k+1)`, introduced by WHERE exactly when k = 0, and the k-th argument is that filter's value |
| Sql.EncodedHasOneWhere | internal/storage/music/music.go:314-320 | an encoded predicate list has exactly one WHERE when it is non-empty and none when it is empty |
| Sql.EncodedSelectsAgreeing | internal/storage/music/music.go:279-307 | the encoded predicate list, with its placeholders bound, selects a row exactly when the row agrees with every filter |
| Sql.Page | internal/storage/music/music.go:309-310 | LIMIT/OFFSET returns `limit` rows when that many remain past `offset`, otherwise all the remaining rows (none when the offset is past the end), and they are the rows from position `offset` on, in order |
| Sql.EmptyPage | internal/storage/music/music.go:262-264 | a page is empty exactly when its offset is at or past the last row |
| Sql.ConsecutivePages | internal/storage/music/music.go:309-310 | the page at offset o followed by the page at o+size is the double-size page at o, so consecutive pages neither overlap nor skip a row |
| MusicQuery.SetFiltersOrdered | internal/storage/music/music.go:279-307 | the set filters follow the fixed column order m.song, m.text_song, m.link, g.name, m.release_date, there are at most five, and there are none exactly when no field is set |
| MusicQuery.ThenAgrees | internal/storage/music/music.go:279-307 | adding a field's filter only when it is set adds exactly that field's condition |
| MusicQuery.SetFiltersMeanMatch | internal/storage/music/music.go:279-307 | a row agrees with all set filters exactly when every set field (non-empty string, non-zero date) equals the row's column |
| MusicQuery.EncodedFilterQuery | internal/storage/music/music.go:279-310 | any encoding of the set filters has one WHERE if some field is set and none otherwise, is empty with no arguments exactly when no field is set, and selects exactly the matching rows |
| MusicQuery.AddCondition | internal/storage/music/music.go:314-320 | addCondition yields the predicate on `field` with placeholder `paramIndex`, introduced by WHERE exactly when no WHERE came before |
| MusicQuery.AddFilterIfSet | internal/storage/music/music.go:279-307 | one `if field set { append; addCondition }` block extends the encoding by that field's filter, and the WHERE flag is set exactly when some filter has been emitted |
| MusicQuery.GenerateQuery | internal/storage/music/music.go:268-312 | generateQuery emits one predicate per set field in the fixed order with `$1..$n` and one WHERE, has no WHERE and no arguments when no field is set, selects exactly the matching rows, and ends `LIMIT countSongs OFFSET (page-1)*countSongs` |
| MusicQuery.FieldsOf | internal/domain/models/music.go:5-12 | the six fields of models.Music, in declaration order, with their db tags |
| MusicQuery.Kept | internal/storage/music/music.go:201-206 | every kept field is non-zero and not Group, and there are no more kept fields than fields |
| MusicQuery.KeptFromFields | internal/storage/music/music.go:201-206 | every kept field is one of the fields, and every non-zero field other than Group is kept |
| MusicQuery.KeptEmpty | internal/storage/music/music.go:208-210 | nothing is kept exactly when no field is emitted |
| MusicQuery.KeptIsPatch | internal/storage/music/music.go:201-210 | some field is kept exactly when the patch has a non-zero Id, Song, Text, Link or ReleaseDate |
| MusicQuery.GenerateUpdateQuery | internal/storage/music/music.go:194-215 | no statement and no arguments exactly when nothing is set; otherwise one SET entry per kept field in field order with `$1..$n`, then `WHERE id=$(n+1)` with the id as the last of n+1 arguments |
| MusicQuery.ApplySetsIsApplyEmitted | internal/storage/music/music.go:201-206 | executing the built SET list writes each kept field's value to its column, in field order |
| MusicQuery.EmittedIsPatched | internal/storage/music/music.go:201-206 | for a patch with a zero Id, writing the kept fields replaces exactly the non-zero title, text, link and date of the stored row |
| MusicQuery.ExecutedUpdateIsPatch | internal/storage/music/music.go:194-215 | executing the built statement performs exactly the partial update, and its WHERE placeholder is bound to the id |
| MusicStore.NewGroup | internal/storage/music/group.go:39-47 | createGroup inserts exactly one group under the returned next id, and fails for a name that already exists |
| MusicStore.Relink | internal/storage/music/group.go:9-27 | a lookup failure is returned before any write, and every error comes from the lookup, the insert or the link update |
| MusicStore.UpdateWithGroup | internal/storage/music/group.go:9-27 | updateWithGroup, step by step with groupId reassigned, computes exactly Relink |
| MusicStore.AddTx | internal/storage/music/music.go:29-75 | every driver error Add reports comes from a failing call, and its only other error is AlreadyExists |
| MusicStore.UpdateTx | internal/storage/music/music.go:130-192 | EmptyArguments is returned only for a patch with nothing to set and no group |
| MusicStore.Matching | internal/storage/music/music.go:253-266 | the matching rows are rows of the scan that match the filter, and every matching row of the scan is among them |
| MusicStore.SelectWhereIsMatching | internal/storage/music/music.go:256-257 | evaluating a predicate list that selects exactly the matching rows returns the matching rows in scan order |
| MusicStore.FirstOf | internal/storage/music/music.go:326-333 | the inner-joined row found has that title and group; none is found only when no row of the scan has both |
| MusicStore.FirstWithId | internal/storage/music/music.go:237-243 | the inner-joined row found has that id; none is found only when no row of the scan has it with a group |
| MusicStore.Get | internal/storage/music/music.go:322-341 | a found song has that title and group and comes from the tables; the errors are NotFound or a driver error |
| MusicStore.GetText | internal/storage/music/music.go:343-361 | the text of the song Get would find, and the same failures |
| MusicStore.SelectById | internal/storage/music/music.go:237-250 | a selected column with no destination field in models.Music is a driver error whatever the rows; otherwise, without a driver fault, a song is found exactly when some inner-joined row has the id, and it has that id; the only other error is NotFound |
| MusicStore.GetByIdAsWritten | internal/storage/music/music.go:234-251 | as written the query selects a bare `name` column with no destination field, so every call returns a driver error |
| MusicStore.GetById | internal/storage/music/music.go:234-251 | with the group columns aliased as Get aliases them: a found song has that id, and without a driver fault a song is found exactly when some inner-joined row has the id; the errors are NotFound or a driver error |
| MusicStore.GetAllRows | internal/storage/music/music.go:253-266 | GetAll returns a non-empty page of at most countSongs matching rows; an empty page is NotFound |
| MusicStore.Store.constructor | internal/storage/music/music.go:29-75 | a new store is empty and consistent |
| MusicStore.Store.Install | internal/storage/music/music.go:70-73 | commit makes the transaction's copy the committed state |
| MusicStore.Store.Add | internal/storage/music/music.go:29-75 | Add commits AddTx's state and returns its id; on any error it returns -1 and the committed state is unchanged |
| MusicStore.Store.Update | internal/storage/music/music.go:130-192 | Update commits UpdateTx's state; on any error, including EmptyArguments, AlreadyExists and NotFound, nothing is committed |
| MusicStore.Store.Delete | internal/storage/music/music.go:111-128 | Delete returns DeleteEffect's error and leaves its state |
| MusicStore.Store.GetAll | internal/storage/music/music.go:253-312 | GetAll builds the query, runs it over a listing of the committed tables and returns exactly GetAllRows |
| StoreProperties.NewGroupIsFresh | internal/storage/music/group.go:39-47 | on a consistent state the created group's id is new, and the state stays consistent |
| StoreProperties.RelinkSucceeds | internal/storage/music/group.go:9-27 | updateWithGroup succeeds exactly when neither the lookup nor the link update fails and, for a new name, the insert does not fail |
| StoreProperties.RelinkOutcome | internal/storage/music/group.go:9-56 | an existing group is reused and a new one is created only when none has the name; only song `musicId`'s link changes, to that group; a song with no link row changes nothing but the groups |
| StoreProperties.RelinkKeepsConsistent | internal/storage/music/group.go:9-27 | a successful relink keeps the tables consistent |
| StoreProperties.AddSucceeds | internal/storage/music/music.go:29-75 | Add succeeds exactly when no driver call fails and the group has no song of that title |
| StoreProperties.AddCommits | internal/storage/music/music.go:36-74 | a successful Add stores the song under the next id, reuses or creates its group, and links the new song to it; nothing else changes |
| StoreProperties.AddKeepsConsistent | internal/storage/music/music.go:29-75 | Add keeps the tables consistent |
| StoreProperties.AddRejectsDuplicate | internal/storage/music/music.go:42-51 | once the transaction is open, Add fails with AlreadyExists, and commits nothing, exactly when a song with that title is linked to a group with that name |
| StoreProperties.AddTwiceRejected | internal/storage/music/music.go:42-51 | adding the same song to the same group a second time fails with AlreadyExists |
| StoreProperties.ListedUnique | internal/storage/music/music.go:269-274 | two joined rows of one song are the same row |
| StoreProperties.AddThenGet | internal/storage/music/music.go:322-361 | after Add, Get of its title and group returns the song with its new id and group, and GetText returns its text |
| StoreProperties.AddedSongListed | internal/storage/music/music.go:53-68 | after Add, the new song is in the tables with its id and its resolved group |
| StoreProperties.OnlyAddedInGroup | internal/storage/music/music.go:42-51 | after Add, no other stored song has that title in that group |
| StoreProperties.DeleteOutcome | internal/storage/music/music.go:111-128 | Delete removes the song and its links and nothing else, and reports NotFound exactly when no song row had the id |
| StoreProperties.DeleteFailureKeepsRows | internal/storage/music/music.go:113-117 | a failed DELETE statement removes nothing, and its error is returned |
| StoreProperties.DeleteKeepsConsistent | internal/storage/music/music.go:111-128 | Delete keeps the tables consistent |
| StoreProperties.GetByIdFindsStored | internal/storage/music/music.go:234-251 | over a listing of a consistent store the aliased GetById finds exactly the stored ids, and returns the song as stored with its group |
| StoreProperties.GetByIdAsWrittenMissesStored | internal/storage/music/music.go:237 | for every stored song, GetById as written returns a driver error where the aliased query finds the song |
| StoreProperties.DeleteThenGet | internal/storage/music/music.go:111-128 | after a Delete no read finds that id |
| StoreProperties.UpdateEmptyPatch | internal/storage/music/music.go:150-153 | a patch with nothing to set and no group fails with EmptyArguments once the transaction is open |
| StoreProperties.UpdateGroupOnly | internal/storage/music/music.go:143-159 | a patch with only a group commits just the relink; no song row changes, and it succeeds even for an unknown id |
| StoreProperties.UpdateTitleCollision | internal/storage/music/music.go:162-171 | with a title to set, Update fails with AlreadyExists exactly when another song with that title shares a group with song `id` |
| StoreProperties.UpdateNotFound | internal/storage/music/music.go:173-185 | with something to set and no title collision, Update fails with NotFound exactly when no song has the id |
| StoreProperties.UpdatePatches | internal/storage/music/music.go:130-192 | a successful Update changes exactly song `id`'s row, by the partial-update policy, and relinks it when a group is named; with no group, groups and links stay |
| StoreProperties.UpdateCommitsRelinked | internal/storage/music/music.go:143-192 | a successful Update commits the relinked copy, patched at song `id` when there is something to set |
| StoreProperties.UpdateKeepsConsistent | internal/storage/music/music.go:130-192 | Update keeps the tables consistent |
| StoreProperties.UpdateInternalIsFault | internal/storage/music/music.go:130-192 | every driver error Update reports comes from a failing call |
| StoreProperties.GetAllNotFound | internal/storage/music/music.go:253-310 | GetAll reports NotFound exactly when the page offset `(page-1)*countSongs` is at or past the number of matching rows |
| StoreProperties.GetAllWindow | internal/storage/music/music.go:253-310 | a successful GetAll returns the matching rows from offset (page-1)*countSongs on, in order: countSongs of them when that many remain, otherwise all the rest |
| StoreProperties.GetAllListed | internal/storage/music/music.go:253-266 | every row GetAll returns is a stored song with its group |
| Verses.FindSep | internal/services/music/music.go:242 | the index found is the first separator at or after `from`; -1 means there is none |
| Verses.Split | internal/services/music/music.go:242 | strings.Split on `"\n\n"` yields at least one piece, and no piece contains the separator |
| Verses.JoinSplit | internal/services/music/music.go:242-251 | joining the pieces of a split with `"\n\n"` gives back the text |
| Verses.SplitLeftmost | internal/services/music/music.go:242 | strings.Split cuts at the leftmost separator: a text with no blank line is one piece, itself; otherwise the first piece is the text before the first blank line, no separator starts inside it or straddles its end, and the other pieces are the split of the text after that blank line |
| Verses.SplitFourNewlines | internal/services/music/music.go:242 | four newlines, two overlapping separators, split into three empty verses |
| Verses.SplitNoSep | internal/services/music/music.go:242 | a text without a blank line is a single verse |
| MusicService.Translate | internal/services/music/music.go:120-133 | a repository sentinel that the operation maps becomes the service sentinel of the same kind; any other error is wrapped unchanged |
| MusicService.Add | internal/services/music/music.go:50-58 | Add returns the id on success; on error the id is 0, AlreadyExists is re-raised and anything else is wrapped |
| MusicService.Delete | internal/services/music/music.go:79-87 | Delete succeeds exactly when the repository does; NotFound is re-raised and anything else is wrapped |
| MusicService.Update | internal/services/music/music.go:113-133 | a patch that cannot be mapped fails before the repository is called; otherwise NotFound and AlreadyExists are re-raised and anything else is wrapped |
| MusicService.Get | internal/services/music/music.go:193-213 | Get returns the found song mapped for output; NotFound is re-raised and anything else is wrapped |
| MusicService.GetAll | internal/services/music/music.go:161-177 | GetAll returns exactly one mapped item per repository row, in the same order; NotFound is re-raised |
| MusicService.DivFits | internal/services/music/music.go:243 | with Go's integer division, `len/countVerse >= page` exactly when `countVerse*page <= len` |
| MusicService.GetText | internal/services/music/music.go:216-255 | a repository error is translated before any paging; a page succeeds exactly when `countVerse*page` verses exist, and otherwise is NotFound; the slice bounds satisfy 0 <= start <= end <= len(verses), and the result is those verses re-joined |
| MusicService.WholeTextPage | internal/services/music/music.go:249-251 | page 1 with countVerse = len(verses) returns the stored text |
| MusicService.PartialPageRejected | internal/services/music/music.go:243-246 | a trailing page with fewer than countVerse verses left is NotFound |
| MusicService.PagesAreConsecutive | internal/services/music/music.go:249-251 | when page p+1 is served, page p is served too, and page p+1 is the next window of countVerse verses |
| MusicService.AddThenReadLyrics | internal/services/music/music.go:231-251 | after Add, GetText of the song's title and group, with one page holding every verse, returns exactly the text it was added with |
| AppService.GetTextAsWritten | internal/application/musicService.go:38-51 | a repository error comes before any page check; page < 1 is rejected; success means 1 <= page < len(verses), returning verse number `page` |
| AppService.LastVerseUnreachable | internal/application/musicService.go:46-48 | the page that would return the last verse is reported out of range |
| AppService.ThreeVersesAsWritten | internal/application/musicService.go:46-48 | "A\n\nB\n\nC" splits into three verses, and page 3 is reported out of range |
| AppService.GetText | internal/application/musicService.go:38-51 | corrected: every page from 1 to len(verses) returns its verse; a later page is out of range |
| AppService.EveryVerseServed | internal/application/musicService.go:46-50 | corrected, verse k is served by page k+1; as written, only when k is not the last verse |
| AppService.AsWrittenDiffersOnlyAtLast | internal/application/musicService.go:46-48 | the two versions agree on every page except len(verses) |
| LegacyStorage.IntendedFiltersMeanMatch | internal/storage/musicRepository.go:106-130 | a row agrees with the intended filters exactly when every non-empty field equals its column |
| LegacyStorage.EncodedAsWritten | internal/storage/musicRepository.go:106-134 | an encoding of the as-written filters has one WHERE exactly when a field is set, is empty exactly when none is, and binds the text as the link predicate's argument |
| LegacyStorage.EncodedIntended | internal/storage/musicRepository.go:106-134 | an encoding of the intended filters has one WHERE exactly when a field is set, and selects exactly the matching rows |
| LegacyStorage.GenerateQueryAsWritten | internal/storage/musicRepository.go:101-136 | song, text_song, link predicates in that order with `$k` after the k-th append and one WHERE; the link predicate binds the text; `LIMIT 5 OFFSET (page-1)*5` |
| LegacyStorage.LinkFilterBindsText | internal/storage/musicRepository.go:122-123 | with only a link filter set, the query as written does not select the song with that link |
| LegacyStorage.GenerateQuery | internal/storage/musicRepository.go:101-136 | corrected: the same shape, and it selects exactly the rows matching the filters |
| LegacyStorage.GetGroupId | internal/storage/musicRepository.go:19-27 | getGroupId finds a group's id exactly when the statement uses `$n` placeholders, the lookup does not fail and the name is stored; a `?` statement is rejected by PostgreSQL |
| LegacyStorage.InsertGroupRow | internal/storage/musicRepository.go:47-53 | the group INSERT yields an id only for a `$n` statement with RETURNING, a new name and no failure, and then exactly one group is added under the next id; otherwise it is an error with nothing written |
| LegacyStorage.InsertGroupWith | internal/storage/musicRepository.go:41-54 | insertGroup returns the lookup's id when the lookup succeeds, whatever error a failed lookup had; otherwise the INSERT's id and state, or -1 with nothing written |
| LegacyStorage.InsertGroupAsWritten | internal/storage/musicRepository.go:41-54 | as written both statements use `?` and the INSERT has no RETURNING, so every call returns -1 with an error and writes nothing, even for a stored group |
| LegacyStorage.InsertGroup | internal/storage/musicRepository.go:41-54 | corrected with `$1` and RETURNING id: an existing group is reused with no write; otherwise exactly one group is inserted under the next id, which is returned |
| LegacyStorage.Delete | internal/storage/musicRepository.go:83-93 | the link rows are deleted before the song row; if that fails nothing changes; if the second statement fails the links are gone and the song stays; an unknown id is not an error |
| InfraQuery.IntendedFiltersMeanMatch | internal/infrastructure/musicRepository.go:53-87 | a row agrees with the intended filters exactly when every non-empty field equals its column |
| InfraQuery.EncodedAsWritten | internal/infrastructure/musicRepository.go:48-93 | an encoding of the as-written filters has one WHERE exactly when a field is set, is empty with no arguments exactly when none is, and binds the text as the link predicate's argument |
| InfraQuery.EncodedIntended | internal/infrastructure/musicRepository.go:48-93 | an encoding of the intended filters has one WHERE exactly when a field is set, and selects exactly the matching rows |
| InfraQuery.GenerateQueryAsWritten | internal/infrastructure/musicRepository.go:48-95 | song, music_group, text_song, link predicates in that order with `$len(args)` and one WHERE; no WHERE and no arguments without filters; the link predicate binds the text; `LIMIT 5 OFFSET (page-1)*5` |
| InfraQuery.LinkFilterBindsText | internal/infrastructure/musicRepository.go:79-87 | filtering by group and link, the query as written does not select the group's song with that link |
| InfraQuery.GenerateQuery | internal/infrastructure/musicRepository.go:48-95 | corrected: the same shape, and it selects exactly the rows matching the filters |

## Left out

- MusicStore.Store.Update: requires a patch whose Id field is zero. The service's mapper never sets Id (pkg/mapper/mapper.go:40-46). A non-zero Id would also SET the key column, and the row-level model does not show that.
- MusicStore.AddTx: a rolled-back transaction also gives back the sequence values it consumed. PostgreSQL sequences are not transactional, so the real store would skip such ids.
- MusicQuery.GenerateQuery: the offset `(page - 1) * countSongs` is an unbounded integer. Go's `int` is 64 bits wide and wraps (internal/storage/music/music.go:309). The handler accepts any page of at least 1 (internal/handler/music.go:235-257). With page 2^62 + 1 and countSongs 4, the source therefore builds `OFFSET 0` and returns page 1, where the model's offset is 2^64 and GetAll is NotFound.
- MusicStore.GetAllRows: uses the same unbounded offset, so a wrapped offset is not modelled.
- LegacyStorage.GenerateQuery: the offset `(page - 1) * 5` is unbounded in the model; the source wraps it at 64 bits (internal/storage/musicRepository.go:132). The same holds for LegacyStorage.GenerateQueryAsWritten.
- InfraQuery.GenerateQuery: the offset is unbounded in the model; the source wraps it at 64 bits (internal/infrastructure/musicRepository.go:89). The same holds for InfraQuery.GenerateQueryAsWritten.
- MusicStore.UpdateTx: "nothing committed" is modelled, but an open transaction is not. The deferred rollback (internal/storage/music/music.go:137-141) tests the outer `err`. The returns for EmptyArguments (:152), a duplicate check error (:165, where `err` is shadowed), AlreadyExists (:168) and NotFound (:184) leave it nil. Those paths neither commit nor roll back, so the pooled connection stays held. The model has no connections or open transactions.
- MusicStore.InsertGroupIfAbsent: `INSERT ... ON CONFLICT DO NOTHING` (internal/storage/music/music.go:89) consumes a sequence value even when the name already exists. The model draws a group id only when a group is actually created. Real group ids therefore run ahead of `nextGroupId`, and NewGroupIsFresh and AddCommits speak of the model's numbering, not the database's.
- MusicStore.SelectById: the group type of internal/domain/models is not part of this model. The destination names `group.id` and `group.name` are taken from the aliases Get uses (internal/storage/music/music.go:326-327).
- MusicStore.DeleteEffect: the song's link rows are assumed to go with it (ON DELETE CASCADE on music_groups). The schema is not part of this model.
- MusicStore.RowOf: a song without a link row is read with the zero group, which stands for the NULL group columns. Scanning NULL into the Go struct may fail in the driver, and that is not modelled.
- MusicStore.LinkByName: `ON CONFLICT DO NOTHING` is modelled as "the song already has a link row". A freshly inserted song never has one.
- StoreProperties.UpdateGroupOnly: an Update that names a group but no title (only a group, or a group with text, link or date) relinks without the title check. It can therefore leave two songs with one title in one group. This is stated as the code's behaviour and is not corrected.
- Release dates are opaque values with a zero element. `time.Parse` in the mapper, and the date's `String()` in the output, are foreign library calls. Their failure is the `mapped` parameter of MusicService.Update.
- MusicService.ForGet: MusicForGet copies the title, group name, link and date. The output id is 0.
- Logging (`slog`), the HTTP handlers, the Swagger docs, bootstrap and configuration are I/O. Only the handlers' page and count checks are kept, as `requires`.
- The external metadata client is network I/O.
- The check-then-insert race between concurrent Add calls depends on transaction isolation.
- SQL execution and row scanning are replaced by the table maps, the `scan` parameter and the `faults` parameter.
- The application layer's Add, Delete, Update, GetAll and Get (internal/application/musicService.go:18-36) only call the repository and return its answer unchanged, so they add no behaviour to model.
- The earliest revision's Add, Update, GetAll, Get and GetText, and the single-table revision's repository operations other than generateQuery, are not part of this model.

## Findings

| source | as written | input that shows it | evidently intended | confidence | as-written member | corrected member |
|---|---|---|---|---|---|---|
| internal/application/musicService.go:47 | `len(verses) <= page` is out of range | text "A\n\nB\n\nC", page 3 | `len(verses) < page`, so the last verse is served | not executed | AppService.ThreeVersesAsWritten | AppService.GetText |
| internal/storage/musicRepository.go:123 | the link predicate binds `params.Text` | only Link set, to "https://example.com" | bind `params.Link` | not executed | LegacyStorage.LinkFilterBindsText | LegacyStorage.GenerateQuery |
| internal/infrastructure/musicRepository.go:80 | the link predicate binds `params.Text` | Group "Muse" and Link "https://example.com" | bind `params.Link` | not executed | InfraQuery.LinkFilterBindsText | InfraQuery.GenerateQuery |
| internal/storage/musicRepository.go:21-54 | getGroupId's `SELECT ... WHERE name=?` and the `INSERT INTO groups (name) VALUES (?)` use `?` placeholders, which PostgreSQL rejects through lib/pq; the INSERT also has no RETURNING, and its row is scanned | any group name, stored or not | `$1` placeholders and `... RETURNING id`, so a stored group's id or the new group's id is returned | not executed | LegacyStorage.InsertGroupAsWritten | LegacyStorage.InsertGroup |
| internal/storage/music/music.go:237 | GetById selects a bare `g.name` and no group id; models.Music has no destination named `name`, so sqlx's Get fails before reading a row | any id, for instance that of a stored song | alias `g.id AS "group.id", g.name AS "group.name"` as Get does, so the stored song is returned | not executed | StoreProperties.GetByIdAsWrittenMissesStored | MusicStore.GetById |
