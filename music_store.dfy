/**
 * The current record repository (internal/storage/music/music.go and
 * group.go) over an in-memory picture of its three tables:
 *
 *   music        id -> (song, text_song, link, release_date)
 *   groups       name -> id          (name is unique)
 *   music_groups song id -> group id (one group per song)
 *
 * A transaction works on a copy of the committed tables (a `Db` value)
 * that is written back only at Commit, so a rollback is simply dropping
 * the copy. Driver failures are not predictable from the data; they are a
 * parameter `faults`: the set of driver calls that report an error.
 */
module MusicStore {
  import opened Outcomes
  import opened Models
  import opened Sql
  import opened MusicQuery

  /** The driver calls the repository makes. */
  datatype Step =
    | Begin | InsertGroup | CheckSongInGroup | InsertMusic | InsertLink | Commit
    | LookupGroup | CreateGroup | UpdateLink | CheckDuplicate | ExecUpdate | RowsAffected
    | DeleteSong | DeleteLinks | SelectRows | SelectOne

  /** The repository's errors: its three sentinels, or a driver error at a step. */
  datatype RepoError = NotFound | AlreadyExists | EmptyArguments | Internal(step: Step)

  /** A lookup error: `sql.ErrNoRows`, or a driver failure. */
  datatype LookupError = NoRows | LookupFailed

  /** The tables, with the next values of the two id sequences. */
  datatype Db = Db(songs: map<int, SongRow>, groups: map<string, int>, links: map<int, int>,
                   nextSongId: int, nextGroupId: int)

  /** The store with no rows; both sequences start at 1. */
  const EmptyDb := Db(map[], map[], map[], 1, 1)

  /**
   * The shape every committed state has: ids come from their sequences,
   * group ids are distinct, every song has exactly one link row and every
   * link row references an existing group.
   */
  ghost predicate Consistent(db: Db)
  {
    && db.nextSongId >= 1 && db.nextGroupId >= 1
    && (forall id :: id in db.songs ==> 1 <= id < db.nextSongId)
    && (forall n :: n in db.groups ==> 1 <= db.groups[n] < db.nextGroupId)
    && (forall n1, n2 :: n1 in db.groups && n2 in db.groups && db.groups[n1] == db.groups[n2] ==> n1 == n2)
    && db.links.Keys == db.songs.Keys
    && (forall id :: id in db.links ==> db.links[id] in db.groups.Values)
  }

  // ---------------------------------------------------------------------
  // The single statements, on a transaction's copy
  // ---------------------------------------------------------------------

  /** insertGroup: `INSERT INTO groups (name) VALUES ($1) ON CONFLICT DO NOTHING`. */
  function InsertGroupIfAbsent(db: Db, name: string): Db
  {
    if name in db.groups then db
    else db.(groups := db.groups[name := db.nextGroupId], nextGroupId := db.nextGroupId + 1)
  }

  /** checkSongInGroup: a stored song with this title is linked to the group with this name. */
  predicate SongInGroup(db: Db, song: string, name: string)
  {
    exists id :: id in db.songs && id in db.links && db.songs[id].song == song
      && name in db.groups && db.groups[name] == db.links[id]
  }

  /** insertMusic: the new row gets the next id of the `music` sequence, which is returned. */
  function InsertSong(db: Db, m: Music): (int, Db)
  {
    (db.nextSongId, db.(songs := db.songs[db.nextSongId := RowOfMusic(m)], nextSongId := db.nextSongId + 1))
  }

  /** The link insert of Add: the group with this name linked to the song, unless it has a link row. */
  function LinkByName(db: Db, songId: int, name: string): Db
  {
    if name in db.groups && songId !in db.links then db.(links := db.links[songId := db.groups[name]]) else db
  }

  /** getGroupIDByName: `SELECT id FROM groups WHERE name = $1`. */
  function GroupIdByName(db: Db, name: string, faults: set<Step>): Result<int, LookupError>
  {
    if LookupGroup in faults then Err(LookupFailed)
    else if name in db.groups then Ok(db.groups[name])
    else Err(NoRows)
  }

  /** createGroup: `INSERT INTO groups (name) ... RETURNING id`; a name that exists violates its uniqueness. */
  function NewGroup(db: Db, name: string, faults: set<Step>): (r: Result<(int, Db), Step>)
    ensures r.Ok? ==> name !in db.groups && r.value.1 == db.(groups := db.groups[name := r.value.0], nextGroupId := db.nextGroupId + 1)
    ensures r.Err? ==> r.error == CreateGroup
  {
    if CreateGroup in faults || name in db.groups then Err(CreateGroup)
    else Ok((db.nextGroupId, db.(groups := db.groups[name := db.nextGroupId], nextGroupId := db.nextGroupId + 1)))
  }

  /** updateMusicGroup: `UPDATE music_groups SET group_id = $1 WHERE music_id = $2`. */
  function SetMusicGroup(db: Db, musicId: int, groupId: int, faults: set<Step>): Result<Db, Step>
  {
    if UpdateLink in faults then Err(UpdateLink)
    else if musicId in db.links then Ok(db.(links := db.links[musicId := groupId]))
    else Ok(db)
  }

  /**
   * updateWithGroup: look the group up; a lookup error other than
   * no-rows is returned at once; when no group was found (id 0) one is
   * created; then the song's link rows are pointed at it.
   */
  function Relink(db: Db, musicId: int, name: string, faults: set<Step>): (r: Result<Db, Step>)
    ensures LookupGroup in faults ==> r == Err(LookupGroup)
    ensures r.Err? ==> r.error in {LookupGroup, CreateGroup, UpdateLink}
  {
    var lookup := GroupIdByName(db, name, faults);
    if lookup == Err(LookupFailed) then Err(LookupGroup)
    else
      var groupId := if lookup.Ok? then lookup.value else 0;
      if groupId == 0 then
        match NewGroup(db, name, faults)
        case Err(s) => Err(s)
        case Ok((g, created)) => SetMusicGroup(created, musicId, g, faults)
      else SetMusicGroup(db, musicId, groupId, faults)
  }

  /**
   * checkUpdateOnDuplicate: another song (`m.id <> id`) with this title
   * shares a group with song `id`.
   */
  predicate HasDuplicateTitle(db: Db, song: string, id: int)
  {
    exists m :: m in db.songs && db.songs[m].song == song && m != id
      && m in db.links && id in db.links && db.links[m] == db.links[id]
  }

  // ---------------------------------------------------------------------
  // The operations, as functions of the committed state
  // ---------------------------------------------------------------------

  /**
   * Add: the outcome of its transaction on `db`, the new song's id with
   * the state it commits, or the error it returns (nothing committed).
   */
  function AddTx(db: Db, m: Music, faults: set<Step>): (r: Result<(int, Db), RepoError>)
    ensures r.Err? && r.error.Internal? ==> r.error.step in faults
    ensures r.Err? ==> r.error.Internal? || r.error == AlreadyExists
  {
    if Begin in faults then Err(Internal(Begin))
    else if InsertGroup in faults then Err(Internal(InsertGroup))
    else
      var t1 := InsertGroupIfAbsent(db, m.group.name);
      if CheckSongInGroup in faults then Err(Internal(CheckSongInGroup))
      else if SongInGroup(t1, m.song, m.group.name) then Err(AlreadyExists)
      else if InsertMusic in faults then Err(Internal(InsertMusic))
      else
        var (id, t2) := InsertSong(t1, m);
        if InsertLink in faults then Err(Internal(InsertLink))
        else if Commit in faults then Err(Internal(Commit))
        else Ok((id, LinkByName(t2, id, m.group.name)))
  }

  /** The song row after the update statement ran, when song `id` exists. */
  function PatchSong(db: Db, m: Music, id: int): Db
    requires id in db.songs
  {
    db.(songs := db.songs[id := Patched(db.songs[id], m)])
  }

  /** The transaction's copy after Update's first step: relinked when the patch names a group. */
  function Relinked(db: Db, m: Music, id: int, faults: set<Step>): Result<Db, Step>
  {
    if m.group.name != "" then Relink(db, id, m.group.name, faults) else Ok(db)
  }

  /**
   * Update with a patch whose Id field is zero: the state it commits, or
   * the error it returns (nothing committed).
   */
  function UpdateTx(db: Db, m: Music, id: int, faults: set<Step>): (r: Result<Db, RepoError>)
    ensures r.Err? && r.error == EmptyArguments ==> !HasPatch(m) && m.group.name == ""
  {
    if Begin in faults then Err(Internal(Begin))
    else
      match Relinked(db, m, id, faults)
      case Err(s) => Err(Internal(s))
      case Ok(t1) =>
        if !HasPatch(m) then
          if m.group.name == "" then Err(EmptyArguments)
          else if Commit in faults then Err(Internal(Commit))
          else Ok(t1)
        else if m.song != "" && CheckDuplicate in faults then Err(Internal(CheckDuplicate))
        else if m.song != "" && HasDuplicateTitle(t1, m.song, id) then Err(AlreadyExists)
        else if ExecUpdate in faults then Err(Internal(ExecUpdate))
        else if RowsAffected in faults then Err(Internal(RowsAffected))
        else if id !in t1.songs then Err(NotFound)
        else if Commit in faults then Err(Internal(Commit))
        else Ok(PatchSong(t1, m, id))
  }

  /**
   * Delete, a single auto-committed statement: the error it returns and
   * the state after it. The song's link rows go with it (the schema's
   * cascade); a failure of RowsAffected comes after the row is gone.
   */
  function DeleteEffect(db: Db, id: int, faults: set<Step>): (Option<RepoError>, Db)
  {
    if DeleteSong in faults then (Some(Internal(DeleteSong)), db)
    else
      var after := db.(songs := db.songs - {id}, links := db.links - {id});
      if RowsAffected in faults then (Some(Internal(RowsAffected)), after)
      else if id !in db.songs then (Some(NotFound), after)
      else (None, after)
  }

  // ---------------------------------------------------------------------
  // Reads: the rows a SELECT returns, in the order the database returns them
  // ---------------------------------------------------------------------

  /**
   * One row of `music LEFT JOIN music_groups LEFT JOIN groups`: the song
   * as stored, with its linked group, or the zero group (NULL columns)
   * when it has no link row to an existing group.
   */
  ghost predicate Listed(db: Db, m: Music)
  {
    && m.id in db.songs && RowOfMusic(m) == db.songs[m.id]
    && if m.id in db.links && db.links[m.id] in db.groups.Values
       then m.group.id == db.links[m.id] && m.group.name in db.groups && db.groups[m.group.name] == m.group.id
       else m.group == Group(0, "")
  }

  /** `scan` is the joined relation of `db` in some order: every song exactly once. */
  ghost predicate IsListing(db: Db, scan: seq<Music>)
  {
    && (forall i, j :: 0 <= i < j < |scan| ==> scan[i].id != scan[j].id)
    && (forall i :: 0 <= i < |scan| ==> Listed(db, scan[i]))
    && (forall id :: id in db.songs ==> exists i :: 0 <= i < |scan| && scan[i].id == id)
  }

  /** The columns a filter can name, for one joined row; the group name is NULL for the zero group. */
  function RowOf(m: Music): Row
  {
    var base := map[SongColumn := Str(m.song), TextColumn := Str(m.text), LinkColumn := Str(m.link),
                     DateColumn := Time(m.releaseDate)];
    if m.group.id != 0 then base[GroupColumn := Str(m.group.name)] else base
  }

  /** The rows of `rows` the WHERE clause selects, in order. */
  function SelectWhere(cs: seq<Condition>, args: seq<Value>, rows: seq<Music>): seq<Music>
  {
    if rows == [] then []
    else
      var rest := SelectWhere(cs, args, rows[1..]);
      if Selects(cs, args, RowOf(rows[0])) then [rows[0]] + rest else rest
  }

  /** The rows of `rows` that match the filter, in order. */
  function Matching(params: Music, rows: seq<Music>): (r: seq<Music>)
    ensures |r| <= |rows|
    ensures forall i :: 0 <= i < |r| ==> r[i] in rows && MatchesFilter(params, RowOf(r[i]))
    ensures forall m :: m in rows && MatchesFilter(params, RowOf(m)) ==> m in r
  {
    if rows == [] then []
    else
      var rest := Matching(params, rows[1..]);
      if MatchesFilter(params, RowOf(rows[0])) then [rows[0]] + rest else rest
  }

  lemma {:induction false} SelectWhereIsMatching(params: Music, cs: seq<Condition>, args: seq<Value>, rows: seq<Music>)
    requires forall row :: Selects(cs, args, row) <==> MatchesFilter(params, row)
    ensures SelectWhere(cs, args, rows) == Matching(params, rows)
  {
    if rows != [] {
      SelectWhereIsMatching(params, cs, args, rows[1..]);
    }
  }

  /** The first row of `rows` of this song in this group that has a group (an inner join). */
  function FirstOf(rows: seq<Music>, song: string, name: string): (r: Option<Music>)
    ensures r.Some? ==> r.value in rows && r.value.song == song && r.value.group.name == name && r.value.group.id != 0
    ensures r.None? ==> forall m :: m in rows ==> !(m.song == song && m.group.name == name && m.group.id != 0)
  {
    if rows == [] then None
    else if rows[0].song == song && rows[0].group.name == name && rows[0].group.id != 0 then Some(rows[0])
    else FirstOf(rows[1..], song, name)
  }

  /** The first row of `rows` with this id that has a group. */
  function FirstWithId(rows: seq<Music>, id: int): (r: Option<Music>)
    ensures r.Some? ==> r.value in rows && r.value.id == id && r.value.group.id != 0
    ensures r.None? ==> forall m :: m in rows ==> !(m.id == id && m.group.id != 0)
  {
    if rows == [] then None
    else if rows[0].id == id && rows[0].group.id != 0 then Some(rows[0])
    else FirstWithId(rows[1..], id)
  }

  /** Get: the first joined row of this song in this group; none is NotFound. */
  function Get(scan: seq<Music>, song: string, name: string, faults: set<Step>): (r: Result<Music, RepoError>)
    ensures r.Ok? ==> r.value in scan && r.value.song == song && r.value.group.name == name
    ensures r.Err? ==> r.error == Internal(SelectOne) || r.error == NotFound
  {
    if SelectOne in faults then Err(Internal(SelectOne))
    else match FirstOf(scan, song, name)
      case None => Err(NotFound)
      case Some(m) => Ok(m)
  }

  /** GetText: the stored text of the first joined row of this song in this group. */
  function GetText(scan: seq<Music>, song: string, name: string, faults: set<Step>): (r: Result<string, RepoError>)
    ensures r.Ok? <==> Get(scan, song, name, faults).Ok?
    ensures r.Ok? ==> r.value == Get(scan, song, name, faults).value.text
  {
    match Get(scan, song, name, faults)
    case Err(e) => Err(e)
    case Ok(m) => Ok(m.text)
  }

  /**
   * The result-column names sqlx can scan into a models.Music: the db tags
   * of its fields, the group's nested under the `group` tag.
   */
  const MusicDestinations: set<string> := {"id", "song", "text_song", "link", "release_date", "group.id", "group.name"}

  /** The columns GetById's query selects as written: the group's name is a bare `name` and its id is missing. */
  const GetByIdColumnsAsWritten: seq<string> := ["id", "song", "text_song", "link", "release_date", "name"]

  /** The columns of GetById's query with the group aliased as Get aliases it. */
  const GetByIdColumns: seq<string> := ["id", "song", "text_song", "link", "release_date", "group.id", "group.name"]

  /** Every result column has a destination field (sqlx refuses a column without one before reading any row). */
  predicate Scannable(columns: seq<string>)
  {
    forall k :: 0 <= k < |columns| ==> columns[k] in MusicDestinations
  }

  /**
   * `r.db.Get` of the row with this id, selecting `columns`: a column with
   * no destination is an error whatever the rows; otherwise the first
   * joined row with the id, and none is NotFound.
   */
  function SelectById(columns: seq<string>, scan: seq<Music>, id: int, faults: set<Step>): (r: Result<Music, RepoError>)
    ensures !Scannable(columns) ==> r == Err(Internal(SelectOne))
    ensures r.Ok? ==> r.value in scan && r.value.id == id
    ensures r.Err? ==> r.error == Internal(SelectOne) || r.error == NotFound
    ensures Scannable(columns) && SelectOne !in faults ==> (r.Ok? <==> exists m :: m in scan && m.id == id && m.group.id != 0)
  {
    if SelectOne in faults || !Scannable(columns) then Err(Internal(SelectOne))
    else match FirstWithId(scan, id)
      case None => Err(NotFound)
      case Some(m) => Ok(m)
  }

  /** GetById as written: the bare `name` column has no destination, so every call fails with a driver error. */
  function GetByIdAsWritten(scan: seq<Music>, id: int, faults: set<Step>): (r: Result<Music, RepoError>)
    ensures r == Err(Internal(SelectOne))
  {
    assert !Scannable(GetByIdColumnsAsWritten) by {
      assert GetByIdColumnsAsWritten[5] !in MusicDestinations;
    }
    SelectById(GetByIdColumnsAsWritten, scan, id, faults)
  }

  /** GetById with the group columns aliased: the first joined row with this id; none is NotFound. */
  function GetById(scan: seq<Music>, id: int, faults: set<Step>): (r: Result<Music, RepoError>)
    ensures r.Ok? ==> r.value in scan && r.value.id == id
    ensures r.Err? ==> r.error == Internal(SelectOne) || r.error == NotFound
    ensures SelectOne !in faults ==> (r.Ok? <==> exists m :: m in scan && m.id == id && m.group.id != 0)
  {
    assert Scannable(GetByIdColumns);
    SelectById(GetByIdColumns, scan, id, faults)
  }

  /** The rows GetAll returns: the page of the matching rows; an empty page is NotFound. */
  function GetAllRows(scan: seq<Music>, params: Music, countSongs: nat, page: nat, faults: set<Step>): (r: Result<seq<Music>, RepoError>)
    requires page >= 1
    ensures r.Ok? ==> r.value != [] && |r.value| <= countSongs
    ensures r.Ok? ==> forall i :: 0 <= i < |r.value| ==> r.value[i] in scan && MatchesFilter(params, RowOf(r.value[i]))
    ensures r.Err? ==> r.error == Internal(SelectRows) || r.error == NotFound
  {
    if SelectRows in faults then Err(Internal(SelectRows))
    else
      var rows := Page(Matching(params, scan), countSongs, (page - 1) * countSongs);
      if rows == [] then Err(NotFound) else Ok(rows)
  }

  // ---------------------------------------------------------------------
  // group.go on a transaction's copy
  // ---------------------------------------------------------------------

  /** updateWithGroup, statement by statement, with the group id reassigned when it is created. */
  method UpdateWithGroup(tx: Db, musicId: int, name: string, faults: set<Step>) returns (r: Result<Db, Step>)
    ensures r == Relink(tx, musicId, name, faults)
  {
    var lookup := GroupIdByName(tx, name, faults);
    if lookup.Err? && lookup.error != NoRows {
      return Err(LookupGroup);
    }
    var groupId := if lookup.Ok? then lookup.value else 0;
    var cur := tx;
    if groupId == 0 {
      var created := NewGroup(tx, name, faults);
      if created.Err? {
        return Err(created.error);
      }
      groupId, cur := created.value.0, created.value.1;
    }
    r := SetMusicGroup(cur, musicId, groupId, faults);
  }

  // ---------------------------------------------------------------------
  // The repository object: the committed tables
  // ---------------------------------------------------------------------

  class Store {
    var songs: map<int, SongRow>
    var groups: map<string, int>
    var links: map<int, int>
    var nextSongId: int
    var nextGroupId: int

    /** The committed tables. */
    function State(): Db
      reads this
    {
      Db(songs, groups, links, nextSongId, nextGroupId)
    }

    constructor ()
      ensures State() == EmptyDb && Consistent(State())
    {
      songs, groups, links, nextSongId, nextGroupId := map[], map[], map[], 1, 1;
    }

    /** Commit: the transaction's copy becomes the committed state. */
    method Install(tx: Db)
      modifies this
      ensures State() == tx
    {
      songs, groups, links, nextSongId, nextGroupId := tx.songs, tx.groups, tx.links, tx.nextSongId, tx.nextGroupId;
    }

    /**
     * Add: upsert the group, refuse a title the group already has, insert
     * the song, link it, commit. On any error the id is -1 and nothing is
     * committed.
     */
    method Add(music: Music, faults: set<Step>) returns (id: int, err: Option<RepoError>)
      modifies this
      ensures AddTx(old(State()), music, faults).Ok? ==>
                err == None && (id, State()) == AddTx(old(State()), music, faults).value
      ensures AddTx(old(State()), music, faults).Err? ==>
                err == Some(AddTx(old(State()), music, faults).error) && id == -1 && State() == old(State())
    {
      if Begin in faults {
        return -1, Some(Internal(Begin));
      }
      var tx := State();
      if InsertGroup in faults {
        return -1, Some(Internal(InsertGroup));
      }
      tx := InsertGroupIfAbsent(tx, music.group.name);
      if CheckSongInGroup in faults {
        return -1, Some(Internal(CheckSongInGroup));
      }
      var inGroup := SongInGroup(tx, music.song, music.group.name);
      if inGroup {
        return -1, Some(AlreadyExists);
      }
      if InsertMusic in faults {
        return -1, Some(Internal(InsertMusic));
      }
      var (musicId, inserted) := InsertSong(tx, music);
      if InsertLink in faults {
        return -1, Some(Internal(InsertLink));
      }
      tx := LinkByName(inserted, musicId, music.group.name);
      if Commit in faults {
        return -1, Some(Internal(Commit));
      }
      Install(tx);
      return musicId, None;
    }

    /**
     * Update: relink when a group is given, build the SET list, and either
     * fail with EmptyArguments, commit just the relink, or check the title,
     * run the UPDATE and commit. Nothing is committed on any error.
     */
    method Update(music: Music, id: int, faults: set<Step>) returns (err: Option<RepoError>)
      requires music.id == 0
      modifies this
      ensures UpdateTx(old(State()), music, id, faults).Ok? ==>
                err == None && State() == UpdateTx(old(State()), music, id, faults).value
      ensures UpdateTx(old(State()), music, id, faults).Err? ==>
                err == Some(UpdateTx(old(State()), music, id, faults).error) && State() == old(State())
    {
      if Begin in faults {
        return Some(Internal(Begin));
      }
      var tx := State();
      if music.group.name != "" {
        var relinked := UpdateWithGroup(tx, id, music.group.name, faults);
        if relinked.Err? {
          return Some(Internal(relinked.error));
        }
        tx := relinked.value;
      }
      var stmt, args := GenerateUpdateQuery(music, id);
      if stmt.None? {
        if music.group.name == "" {
          return Some(EmptyArguments);
        }
        if Commit in faults {
          return Some(Internal(Commit));
        }
        Install(tx);
        return None;
      }
      if music.song != "" {
        if CheckDuplicate in faults {
          return Some(Internal(CheckDuplicate));
        }
        var duplicate := HasDuplicateTitle(tx, music.song, id);
        if duplicate {
          return Some(AlreadyExists);
        }
      }
      if ExecUpdate in faults {
        return Some(Internal(ExecUpdate));
      }
      var affected := 0;
      if id in tx.songs {
        ExecutedUpdateIsPatch(music, id, stmt.value, args, tx.songs[id]);
        tx := tx.(songs := tx.songs[id := ApplySets(tx.songs[id], stmt.value.sets, args)]);
        affected := 1;
      }
      if RowsAffected in faults {
        return Some(Internal(RowsAffected));
      }
      if affected == 0 {
        return Some(NotFound);
      }
      if Commit in faults {
        return Some(Internal(Commit));
      }
      Install(tx);
      return None;
    }

    /** Delete: `DELETE FROM music WHERE id=$1`; NotFound when no row was removed. */
    method Delete(id: int, faults: set<Step>) returns (err: Option<RepoError>)
      modifies this
      ensures (err, State()) == DeleteEffect(old(State()), id, faults)
    {
      if DeleteSong in faults {
        return Some(Internal(DeleteSong));
      }
      var removed := if id in songs then 1 else 0;
      songs, links := songs - {id}, links - {id};
      if RowsAffected in faults {
        return Some(Internal(RowsAffected));
      }
      if removed == 0 {
        return Some(NotFound);
      }
      return None;
    }

    /**
     * GetAll: build the filtered, paginated query, run it over the joined
     * rows `scan` the database holds, and report an empty page as NotFound.
     */
    method GetAll(params: Music, countSongs: int, page: int, scan: seq<Music>, faults: set<Step>)
      returns (r: Result<seq<Music>, RepoError>)
      requires countSongs >= 1 && page >= 1
      requires IsListing(State(), scan)
      ensures r == GetAllRows(scan, params, countSongs, page, faults)
    {
      var q, args := GenerateQuery(params, countSongs, page);
      if SelectRows in faults {
        return Err(Internal(SelectRows));
      }
      SelectWhereIsMatching(params, q.conditions, args, scan);
      var rows := Page(SelectWhere(q.conditions, args, scan), q.limit, q.offset);
      if |rows| == 0 {
        return Err(NotFound);
      }
      return Ok(rows);
    }
  }
}
