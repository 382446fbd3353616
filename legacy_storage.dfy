/**
 * The earliest repository revision (internal/storage/musicRepository.go):
 * a three-filter listing query with a fixed page size, the group lookup or
 * insert used by its Add, and a two-statement Delete without a transaction.
 */
module LegacyStorage {
  import opened Outcomes
  import opened Models
  import opened Sql
  import opened MusicQuery
  import opened MusicStore

  /** The fixed number of rows per page. */
  const PageSize := 5

  /** The filters the builder sets as written: the link predicate is bound to the text field. */
  function FiltersAsWritten(p: FlatMusic): seq<Filter>
  {
    var f1 := Then([], p.song != "", Filter("song", Str(p.song)));
    var f2 := Then(f1, p.text != "", Filter("text_song", Str(p.text)));
    Then(f2, p.link != "", Filter("link", Str(p.text)))
  }

  /** The filters the three fields ask for, each column bound to its own field. */
  function IntendedFilters(p: FlatMusic): seq<Filter>
  {
    var f1 := Then([], p.song != "", Filter("song", Str(p.song)));
    var f2 := Then(f1, p.text != "", Filter("text_song", Str(p.text)));
    Then(f2, p.link != "", Filter("link", Str(p.link)))
  }

  /** No filter field is set. */
  predicate Unfiltered(p: FlatMusic)
  {
    p.song == "" && p.text == "" && p.link == ""
  }

  /** What the filter asks for, field by field. */
  predicate Matches(p: FlatMusic, row: Row)
  {
    && (p.song != "" ==> Agrees(Filter("song", Str(p.song)), row))
    && (p.text != "" ==> Agrees(Filter("text_song", Str(p.text)), row))
    && (p.link != "" ==> Agrees(Filter("link", Str(p.link)), row))
  }

  lemma IntendedFiltersMeanMatch(p: FlatMusic, row: Row)
    ensures AgreesAll(IntendedFilters(p), row) <==> Matches(p, row)
  {
    var f1 := Then([], p.song != "", Filter("song", Str(p.song)));
    var f2 := Then(f1, p.text != "", Filter("text_song", Str(p.text)));
    ThenAgrees([], p.song != "", Filter("song", Str(p.song)), row);
    ThenAgrees(f1, p.text != "", Filter("text_song", Str(p.text)), row);
    ThenAgrees(f2, p.link != "", Filter("link", Str(p.link)), row);
  }

  /**
   * Any predicate list encoding the filters as written has one WHERE
   * exactly when some field is set, is empty with no arguments when none
   * is, and, with a link filter, binds the text as its last argument.
   */
  lemma EncodedAsWritten(params: FlatMusic, cs: seq<Condition>, args: seq<Value>)
    requires Encodes(cs, args, FiltersAsWritten(params))
    ensures WhereCount(cs) == if Unfiltered(params) then 0 else 1
    ensures Unfiltered(params) <==> cs == [] && args == []
    ensures params.link != "" ==> |args| >= 1 && args[|args| - 1] == Str(params.text)
  {
    EncodedHasOneWhere(cs, args, FiltersAsWritten(params));
    if params.link != "" {
      EncodesAt(cs, args, FiltersAsWritten(params), |args| - 1);
    }
  }

  /**
   * Any predicate list encoding the intended filters has one WHERE exactly
   * when some field is set, is empty with no arguments when none is, and
   * selects exactly the matching rows.
   */
  lemma EncodedIntended(params: FlatMusic, cs: seq<Condition>, args: seq<Value>)
    requires Encodes(cs, args, IntendedFilters(params))
    ensures WhereCount(cs) == if Unfiltered(params) then 0 else 1
    ensures Unfiltered(params) <==> cs == [] && args == []
    ensures forall row :: Selects(cs, args, row) <==> Matches(params, row)
  {
    EncodedHasOneWhere(cs, args, IntendedFilters(params));
    forall row ensures Selects(cs, args, row) <==> Matches(params, row) {
      EncodedSelectsAgreeing(cs, args, IntendedFilters(params), row);
      IntendedFiltersMeanMatch(params, row);
    }
  }

  /**
   * generateQuery as written: song, text_song, link predicates in that
   * order, `$k` after the k-th append, WHERE then AND, and
   * `LIMIT 5 OFFSET (page-1)*5`; the link predicate's argument is the text.
   */
  method GenerateQueryAsWritten(params: FlatMusic, page: int) returns (q: SelectQuery, args: seq<Value>)
    ensures Encodes(q.conditions, args, FiltersAsWritten(params))
    ensures WhereCount(q.conditions) == if Unfiltered(params) then 0 else 1
    ensures Unfiltered(params) <==> q.conditions == [] && args == []
    ensures params.link != "" ==> |args| >= 1 && args[|args| - 1] == Str(params.text)
    ensures q.limit == PageSize && q.offset == (page - 1) * PageSize
  {
    var conditions: seq<Condition> := [];
    args := [];
    var isWhere := false;
    EncodesEmpty();
    ghost var f1 := Then([], params.song != "", Filter("song", Str(params.song)));
    conditions, args, isWhere := AddFilterIfSet(conditions, args, isWhere, [],
      params.song != "", "song", Str(params.song));
    ghost var f2 := Then(f1, params.text != "", Filter("text_song", Str(params.text)));
    conditions, args, isWhere := AddFilterIfSet(conditions, args, isWhere, f1,
      params.text != "", "text_song", Str(params.text));
    conditions, args, isWhere := AddFilterIfSet(conditions, args, isWhere, f2,
      params.link != "", "link", Str(params.text));
    EncodedAsWritten(params, conditions, args);
    q := SelectQuery(conditions, PageSize, (page - 1) * PageSize);
  }

  /**
   * A link filter alone, as written, asks the database for rows whose link
   * is the (empty) text: the song with that link is not selected.
   */
  lemma LinkFilterBindsText()
    ensures var p := FlatMusic(0, "", "", "", "https://example.com", "");
      var row: Row := map["song" := Str("s"), "text_song" := Str("t"), "link" := Str("https://example.com")];
      && Matches(p, row)
      && FiltersAsWritten(p) == [Filter("link", Str(""))]
      && forall cs, args :: Encodes(cs, args, FiltersAsWritten(p)) ==> !Selects(cs, args, row)
  {
    var p := FlatMusic(0, "", "", "", "https://example.com", "");
    var row: Row := map["song" := Str("s"), "text_song" := Str("t"), "link" := Str("https://example.com")];
    forall cs, args | Encodes(cs, args, FiltersAsWritten(p)) ensures !Selects(cs, args, row) {
      EncodedSelectsAgreeing(cs, args, FiltersAsWritten(p), row);
      assert !Agrees(FiltersAsWritten(p)[0], row);
    }
  }

  /** generateQuery with each predicate bound to its own field: it selects exactly the matching rows. */
  method GenerateQuery(params: FlatMusic, page: int) returns (q: SelectQuery, args: seq<Value>)
    ensures Encodes(q.conditions, args, IntendedFilters(params))
    ensures WhereCount(q.conditions) == if Unfiltered(params) then 0 else 1
    ensures Unfiltered(params) <==> q.conditions == [] && args == []
    ensures forall row :: Selects(q.conditions, args, row) <==> Matches(params, row)
    ensures q.limit == PageSize && q.offset == (page - 1) * PageSize
  {
    var conditions: seq<Condition> := [];
    args := [];
    var isWhere := false;
    EncodesEmpty();
    ghost var f1 := Then([], params.song != "", Filter("song", Str(params.song)));
    conditions, args, isWhere := AddFilterIfSet(conditions, args, isWhere, [],
      params.song != "", "song", Str(params.song));
    ghost var f2 := Then(f1, params.text != "", Filter("text_song", Str(params.text)));
    conditions, args, isWhere := AddFilterIfSet(conditions, args, isWhere, f1,
      params.text != "", "text_song", Str(params.text));
    conditions, args, isWhere := AddFilterIfSet(conditions, args, isWhere, f2,
      params.link != "", "link", Str(params.link));
    EncodedIntended(params, conditions, args);
    q := SelectQuery(conditions, PageSize, (page - 1) * PageSize);
  }

  /** The placeholder syntax a statement is written in; PostgreSQL, reached through lib/pq, accepts only `$n`. */
  datatype Placeholder = Question | Dollar

  /** getGroupId: `SELECT id FROM groups WHERE name=<ph>`; the server rejects a statement written with `?`. */
  function GetGroupId(ph: Placeholder, db: Db, name: string, faults: set<Step>): (r: Result<int, LookupError>)
    ensures r.Ok? <==> ph.Dollar? && LookupGroup !in faults && name in db.groups
    ensures r.Ok? ==> r.value == db.groups[name]
  {
    if ph.Question? then Err(LookupFailed) else GroupIdByName(db, name, faults)
  }

  /**
   * The group INSERT whose row is scanned for the new id: a statement
   * written with `?` is rejected, and without RETURNING no row comes back;
   * either way the transaction is rolled back.
   */
  function InsertGroupRow(ph: Placeholder, returning: bool, db: Db, name: string, faults: set<Step>): (r: Result<(int, Db), Step>)
    ensures r.Err? ==> r.error == CreateGroup
    ensures r.Ok? <==> ph.Dollar? && returning && CreateGroup !in faults && name !in db.groups
    ensures r.Ok? ==> r.value.0 == db.nextGroupId
                      && r.value.1 == db.(groups := db.groups[name := db.nextGroupId], nextGroupId := db.nextGroupId + 1)
  {
    if ph.Question? || !returning then Err(CreateGroup) else NewGroup(db, name, faults)
  }

  /**
   * insertGroup over its two statements: the lookup's id when it succeeds
   * (whatever its error, a failed lookup goes on to the INSERT); otherwise
   * the inserted group's id, or -1 with nothing written.
   */
  method InsertGroupWith(ph: Placeholder, returning: bool, db: Db, name: string, faults: set<Step>)
    returns (id: int, err: Option<Step>, db': Db)
    ensures GetGroupId(ph, db, name, faults).Ok? ==> id == db.groups[name] && err == None && db' == db
    ensures GetGroupId(ph, db, name, faults).Err? && InsertGroupRow(ph, returning, db, name, faults).Ok? ==>
              err == None && (id, db') == InsertGroupRow(ph, returning, db, name, faults).value
    ensures GetGroupId(ph, db, name, faults).Err? && InsertGroupRow(ph, returning, db, name, faults).Err? ==>
              id == -1 && err == Some(CreateGroup) && db' == db
  {
    var lookup := GetGroupId(ph, db, name, faults);
    if lookup.Ok? {
      return lookup.value, None, db;
    }
    var created := InsertGroupRow(ph, returning, db, name, faults);
    if created.Err? {
      return -1, Some(CreateGroup), db;
    }
    id, db' := created.value.0, created.value.1;
    err := None;
  }

  /**
   * insertGroup as written: both statements use `?`, which PostgreSQL
   * rejects, and the INSERT has no RETURNING clause, so every call returns
   * -1 with an error and writes nothing, even for a group that exists.
   */
  method InsertGroupAsWritten(db: Db, name: string, faults: set<Step>) returns (id: int, err: Option<Step>, db': Db)
    ensures id == -1 && err == Some(CreateGroup) && db' == db
  {
    id, err, db' := InsertGroupWith(Question, false, db, name, faults);
  }

  /**
   * insertGroup with `$1` placeholders and `RETURNING id`: an existing
   * group is reused with no write; otherwise exactly one group is inserted
   * under the next id, which is returned.
   */
  method InsertGroup(db: Db, name: string, faults: set<Step>) returns (id: int, err: Option<Step>, db': Db)
    ensures err == None ==> name in db'.groups && id == db'.groups[name]
                            && db'.songs == db.songs && db'.links == db.links
    ensures GroupIdByName(db, name, faults).Ok? ==> err == None && db' == db
    ensures GroupIdByName(db, name, faults).Err? && err == None ==>
              name !in db.groups && id == db.nextGroupId && db'.groups == db.groups[name := id]
    ensures err.Some? ==> id == -1 && err == Some(CreateGroup) && db' == db
    ensures CreateGroup !in faults && LookupGroup !in faults ==> err == None
  {
    id, err, db' := InsertGroupWith(Dollar, true, db, name, faults);
  }

  /**
   * Delete: two auto-committed statements, the song's link rows first and
   * then the song row. A failure of the second leaves the song without its
   * links; deleting an id no song has is not an error.
   */
  method Delete(db: Db, id: int, faults: set<Step>) returns (err: Option<Step>, db': Db)
    ensures db'.nextSongId == db.nextSongId && db'.nextGroupId == db.nextGroupId
    ensures DeleteLinks in faults ==> err == Some(DeleteLinks) && db' == db
    ensures DeleteLinks !in faults ==> db'.links == db.links - {id} && db'.groups == db.groups
    ensures DeleteLinks !in faults && DeleteSong in faults ==> err == Some(DeleteSong) && db'.songs == db.songs
    ensures DeleteLinks !in faults && DeleteSong !in faults ==> err == None && db'.songs == db.songs - {id}
  {
    if DeleteLinks in faults {
      return Some(DeleteLinks), db;
    }
    db' := db.(links := db.links - {id});
    if DeleteSong in faults {
      return Some(DeleteSong), db';
    }
    db' := db'.(songs := db'.songs - {id});
    err := None;
  }
}
