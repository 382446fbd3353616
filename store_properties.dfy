/**
 * What the repository's transactions guarantee, stated over the functions
 * of the committed state that the `Store` methods are proved against.
 */
module StoreProperties {
  import opened Outcomes
  import opened Models
  import opened Sql
  import opened MusicQuery
  import opened MusicStore

  /** The driver calls an Add makes. */
  const AddSteps: set<Step> := {Begin, InsertGroup, CheckSongInGroup, InsertMusic, InsertLink, Commit}

  // ---------------------------------------------------------------------
  // Helpers about consistent states
  // ---------------------------------------------------------------------

  /** A group id in use is below the group sequence. */
  lemma LinkBelowNext(db: Db, id: int)
    requires Consistent(db) && id in db.links
    ensures 1 <= db.links[id] < db.nextGroupId
  {
    var g := db.links[id];
    assert g in db.groups.Values;
    var n :| n in db.groups && db.groups[n] == g;
  }

  /** Upserting the group before the check does not change the answer of checkSongInGroup. */
  lemma SongInGroupAfterUpsert(db: Db, song: string, name: string)
    requires Consistent(db)
    ensures SongInGroup(InsertGroupIfAbsent(db, name), song, name) == SongInGroup(db, song, name)
  {
    var t := InsertGroupIfAbsent(db, name);
    if name !in db.groups {
      forall id | id in t.links ensures t.links[id] != t.groups[name] {
        LinkBelowNext(db, id);
      }
    }
  }

  /** Upserting a group keeps a state consistent. */
  lemma UpsertKeepsConsistent(db: Db, name: string)
    requires Consistent(db)
    ensures Consistent(InsertGroupIfAbsent(db, name))
  {
    var t := InsertGroupIfAbsent(db, name);
    if name !in db.groups {
      forall id | id in t.links ensures t.links[id] in t.groups.Values {
        var n :| n in db.groups && db.groups[n] == db.links[id];
        assert t.groups[n] == db.links[id];
      }
    }
  }

  /** A new song under the next id, linked to an existing group, keeps a state consistent. */
  lemma LinkedSongKeepsConsistent(db: Db, row: SongRow, groupId: int)
    requires Consistent(db) && groupId in db.groups.Values
    ensures Consistent(db.(songs := db.songs[db.nextSongId := row], links := db.links[db.nextSongId := groupId],
                           nextSongId := db.nextSongId + 1))
  {
  }

  // ---------------------------------------------------------------------
  // createGroup and updateWithGroup (group.go)
  // ---------------------------------------------------------------------

  /** createGroup on a consistent state: the returned id is new and the state stays consistent. */
  lemma NewGroupIsFresh(db: Db, name: string, faults: set<Step>)
    requires Consistent(db) && NewGroup(db, name, faults).Ok?
    ensures NewGroup(db, name, faults).value.0 !in db.groups.Values
    ensures NewGroup(db, name, faults).value.0 == db.nextGroupId
    ensures Consistent(NewGroup(db, name, faults).value.1)
  {
    var (g, db') := NewGroup(db, name, faults).value;
    assert g == db.nextGroupId;
    forall n | n in db.groups ensures db.groups[n] != g {
    }
    forall id | id in db'.links ensures db'.links[id] in db'.groups.Values {
      var n :| n in db.groups && db.groups[n] == db.links[id];
      assert db'.groups[n] == db.links[id];
    }
  }

  /**
   * updateWithGroup succeeds exactly when neither the lookup nor the link
   * update fails and, for a new name, the insert does not fail; a song
   * without a link row is no reason to fail.
   */
  lemma RelinkSucceeds(db: Db, musicId: int, name: string, faults: set<Step>)
    requires Consistent(db)
    ensures Relink(db, musicId, name, faults).Ok?
        <==> LookupGroup !in faults && UpdateLink !in faults && (name in db.groups || CreateGroup !in faults)
  {
  }

  /**
   * What a successful updateWithGroup does: the group with that name is
   * reused when it exists and created (with the next id) only when it does
   * not; the song's link row, and no other, now references it; a song with
   * no link row changes nothing but the groups.
   */
  lemma RelinkOutcome(db: Db, musicId: int, name: string, faults: set<Step>)
    requires Consistent(db) && Relink(db, musicId, name, faults).Ok?
    ensures var db' := Relink(db, musicId, name, faults).value;
      && name in db'.groups
      && db'.songs == db.songs && db'.nextSongId == db.nextSongId
      && (name in db.groups ==> db'.groups == db.groups && db'.nextGroupId == db.nextGroupId)
      && (name !in db.groups ==> db'.groups == db.groups[name := db.nextGroupId] && db'.nextGroupId == db.nextGroupId + 1)
      && (musicId in db.links ==> db'.links == db.links[musicId := db'.groups[name]])
      && (musicId !in db.links ==> db'.links == db.links)
  {
  }

  /** Pointing a song's link at a group in use keeps a state consistent. */
  lemma RepointKeepsConsistent(db: Db, musicId: int, groupId: int)
    requires Consistent(db) && groupId in db.groups.Values
    ensures Consistent(if musicId in db.links then db.(links := db.links[musicId := groupId]) else db)
  {
  }

  lemma RelinkKeepsConsistent(db: Db, musicId: int, name: string, faults: set<Step>)
    requires Consistent(db) && Relink(db, musicId, name, faults).Ok?
    ensures Consistent(Relink(db, musicId, name, faults).value)
  {
    if name in db.groups {
      assert db.groups[name] in db.groups.Values;
      RepointKeepsConsistent(db, musicId, db.groups[name]);
    } else {
      NewGroupIsFresh(db, name, faults);
      var (g, mid) := NewGroup(db, name, faults).value;
      assert mid.groups[name] == g;
      RepointKeepsConsistent(mid, musicId, g);
    }
  }

  // ---------------------------------------------------------------------
  // Add
  // ---------------------------------------------------------------------

  /** Add on a consistent state succeeds exactly when no driver call fails and the group has no song of that title. */
  lemma AddSucceeds(db: Db, m: Music, faults: set<Step>)
    requires Consistent(db)
    ensures AddTx(db, m, faults).Ok? <==> AddSteps !! faults && !SongInGroup(db, m.song, m.group.name)
  {
    SongInGroupAfterUpsert(db, m.song, m.group.name);
  }

  /**
   * What a successful Add commits: the song under the next id, the group
   * reused or created, and one link from the new song to that group;
   * nothing else changes.
   */
  lemma AddCommits(db: Db, m: Music, faults: set<Step>)
    requires Consistent(db) && AddTx(db, m, faults).Ok?
    ensures var (id, db') := AddTx(db, m, faults).value;
      && id == db.nextSongId && id !in db.songs
      && db'.songs == db.songs[id := RowOfMusic(m)]
      && m.group.name in db'.groups
      && (m.group.name in db.groups ==> db'.groups == db.groups)
      && (m.group.name !in db.groups ==> db'.groups == db.groups[m.group.name := db.nextGroupId])
      && db'.links == db.links[id := db'.groups[m.group.name]]
  {
    assert db.nextSongId !in db.songs;
    assert db.nextSongId !in db.links;
  }

  /** Add keeps the committed state consistent. */
  lemma AddKeepsConsistent(db: Db, m: Music, faults: set<Step>)
    requires Consistent(db) && AddTx(db, m, faults).Ok?
    ensures Consistent(AddTx(db, m, faults).value.1)
  {
    var t1 := InsertGroupIfAbsent(db, m.group.name);
    UpsertKeepsConsistent(db, m.group.name);
    assert t1.nextSongId !in t1.links;
    assert t1.groups[m.group.name] in t1.groups.Values;
    LinkedSongKeepsConsistent(t1, RowOfMusic(m), t1.groups[m.group.name]);
  }

  /**
   * With the transaction and the check reaching the database, Add fails
   * with AlreadyExists exactly when the group already has a song of that
   * title.
   */
  lemma AddRejectsDuplicate(db: Db, m: Music, faults: set<Step>)
    requires Consistent(db) && {Begin, InsertGroup, CheckSongInGroup} !! faults
    ensures AddTx(db, m, faults) == Err(AlreadyExists) <==> SongInGroup(db, m.song, m.group.name)
  {
    SongInGroupAfterUpsert(db, m.song, m.group.name);
  }

  /** Adding the same song to the same group a second time fails with AlreadyExists. */
  lemma AddTwiceRejected(db: Db, m: Music, faults1: set<Step>, faults2: set<Step>)
    requires Consistent(db) && AddTx(db, m, faults1).Ok?
    requires {Begin, InsertGroup, CheckSongInGroup} !! faults2
    ensures AddTx(AddTx(db, m, faults1).value.1, m, faults2) == Err(AlreadyExists)
  {
    var (id, db1) := AddTx(db, m, faults1).value;
    AddCommits(db, m, faults1);
    AddKeepsConsistent(db, m, faults1);
    assert id in db1.songs && id in db1.links && db1.songs[id].song == m.song;
    assert SongInGroup(db1, m.song, m.group.name);
    AddRejectsDuplicate(db1, m, faults2);
  }

  // ---------------------------------------------------------------------
  // Reads after writes
  // ---------------------------------------------------------------------

  /** Two listed rows of one song are the same row. */
  lemma ListedUnique(db: Db, m1: Music, m2: Music)
    requires Consistent(db) && Listed(db, m1) && Listed(db, m2) && m1.id == m2.id
    ensures m1 == m2
  {
  }

  /**
   * Reading a song back after Add: Get of its title and group returns the
   * stored song with its new id and its group, and GetText its text.
   */
  lemma AddThenGet(db: Db, m: Music, faults: set<Step>, scan: seq<Music>, readFaults: set<Step>)
    requires Consistent(db) && AddTx(db, m, faults).Ok?
    requires IsListing(AddTx(db, m, faults).value.1, scan)
    requires SelectOne !in readFaults
    ensures var (id, db') := AddTx(db, m, faults).value;
      && Get(scan, m.song, m.group.name, readFaults)
           == Ok(Music(id, m.song, Group(db'.groups[m.group.name], m.group.name), m.text, m.link, m.releaseDate))
      && GetText(scan, m.song, m.group.name, readFaults) == Ok(m.text)
  {
    var (id, db') := AddTx(db, m, faults).value;
    var name := m.group.name;
    var want := Music(id, m.song, Group(db'.groups[name], name), m.text, m.link, m.releaseDate);
    AddedSongListed(db, m, faults);
    var i :| 0 <= i < |scan| && scan[i].id == id;
    ListedUnique(db', scan[i], want);
    forall x | x in scan && x != want ensures !(x.song == m.song && x.group.name == name && x.group.id != 0) {
      if x.id == id {
        ListedUnique(db', x, want);
      } else {
        OnlyAddedInGroup(db, m, faults, x);
      }
    }
    FirstOfOnly(scan, m.song, name, want);
  }

  /** The first row of a title in a group is the only such row, when there is one. */
  lemma FirstOfOnly(rows: seq<Music>, song: string, name: string, w: Music)
    requires w in rows && w.song == song && w.group.name == name && w.group.id != 0
    requires forall x :: x in rows && x != w ==> !(x.song == song && x.group.name == name && x.group.id != 0)
    ensures FirstOf(rows, song, name) == Some(w)
  {
  }

  /** After Add, the new song is listed with its id and its resolved group. */
  lemma AddedSongListed(db: Db, m: Music, faults: set<Step>)
    requires Consistent(db) && AddTx(db, m, faults).Ok?
    ensures var (id, db') := AddTx(db, m, faults).value;
      && Consistent(db')
      && m.group.name in db'.groups
      && Listed(db', Music(id, m.song, Group(db'.groups[m.group.name], m.group.name), m.text, m.link, m.releaseDate))
  {
    var (id, db') := AddTx(db, m, faults).value;
    AddCommits(db, m, faults);
    AddKeepsConsistent(db, m, faults);
    assert db'.groups[m.group.name] in db'.groups.Values;
  }

  /** After Add, no other listed song has the added title in the added group. */
  lemma OnlyAddedInGroup(db: Db, m: Music, faults: set<Step>, x: Music)
    requires Consistent(db) && AddTx(db, m, faults).Ok?
    requires Listed(AddTx(db, m, faults).value.1, x) && x.id != AddTx(db, m, faults).value.0
    ensures !(x.song == m.song && x.group.name == m.group.name && x.group.id != 0)
  {
    var (id, db') := AddTx(db, m, faults).value;
    AddCommits(db, m, faults);
    AddSucceeds(db, m, faults);
    assert x.id in db.songs && db.songs[x.id] == db'.songs[x.id];
    assert db'.links[x.id] == db.links[x.id];
    LinkBelowNext(db, x.id);
  }

  // ---------------------------------------------------------------------
  // Delete
  // ---------------------------------------------------------------------

  /**
   * Delete removes the song and its link rows and nothing else, and
   * reports NotFound exactly when no song row had that id.
   */
  lemma DeleteOutcome(db: Db, id: int)
    ensures var (err, db') := DeleteEffect(db, id, {});
      && (err == Some(NotFound) <==> id !in db.songs)
      && (err == None <==> id in db.songs)
      && db'.songs == db.songs - {id} && db'.links == db.links - {id} && db'.groups == db.groups
  {
  }

  /** A failed Delete statement removes nothing; the driver error is returned. */
  lemma DeleteFailureKeepsRows(db: Db, id: int, faults: set<Step>)
    requires DeleteSong in faults
    ensures DeleteEffect(db, id, faults) == (Some(Internal(DeleteSong)), db)
  {
  }

  lemma DeleteKeepsConsistent(db: Db, id: int, faults: set<Step>)
    requires Consistent(db)
    ensures Consistent(DeleteEffect(db, id, faults).1)
  {
    var db' := DeleteEffect(db, id, faults).1;
    assert db'.links.Keys == db'.songs.Keys;
  }

  /**
   * GetById with the group aliased, over a listing of a consistent store,
   * finds exactly the stored ids, and the row it returns is that song as stored.
   */
  lemma GetByIdFindsStored(db: Db, scan: seq<Music>, id: int, readFaults: set<Step>)
    requires Consistent(db) && IsListing(db, scan) && SelectOne !in readFaults
    ensures GetById(scan, id, readFaults).Ok? <==> id in db.songs
    ensures GetById(scan, id, readFaults).Ok? ==> Listed(db, GetById(scan, id, readFaults).value)
  {
    if id in db.songs {
      var i :| 0 <= i < |scan| && scan[i].id == id;
      assert Listed(db, scan[i]);
      var n :| n in db.groups && db.groups[n] == db.links[id];
      assert scan[i] in scan && scan[i].group.id != 0;
    }
    var r := GetById(scan, id, readFaults);
    if r.Ok? {
      var i :| 0 <= i < |scan| && scan[i] == r.value;
      assert Listed(db, scan[i]);
    }
  }

  /** GetById as written fails for every stored song, which the aliased query finds. */
  lemma GetByIdAsWrittenMissesStored(db: Db, scan: seq<Music>, id: int, readFaults: set<Step>)
    requires Consistent(db) && IsListing(db, scan) && SelectOne !in readFaults && id in db.songs
    ensures GetByIdAsWritten(scan, id, readFaults) == Err(Internal(SelectOne))
    ensures GetById(scan, id, readFaults).Ok?
  {
    GetByIdFindsStored(db, scan, id, readFaults);
  }

  /** After a Delete no read finds the song again. */
  lemma DeleteThenGet(db: Db, id: int, faults: set<Step>, scan: seq<Music>, song: string, name: string, readFaults: set<Step>)
    requires IsListing(DeleteEffect(db, id, faults).1, scan)
    requires DeleteSong !in faults
    ensures GetById(scan, id, readFaults).Err?
    ensures Get(scan, song, name, readFaults).Ok? ==> Get(scan, song, name, readFaults).value.id != id
  {
    var db' := DeleteEffect(db, id, faults).1;
    forall j | 0 <= j < |scan| ensures scan[j].id != id {
      assert Listed(db', scan[j]);
    }
  }

  // ---------------------------------------------------------------------
  // Update
  // ---------------------------------------------------------------------

  /** A patch with no field to set and no group fails with EmptyArguments once the transaction has begun. */
  lemma UpdateEmptyPatch(db: Db, m: Music, id: int, faults: set<Step>)
    requires !HasPatch(m) && m.group.name == "" && Begin !in faults
    ensures UpdateTx(db, m, id, faults) == Err(EmptyArguments)
  {
  }

  /**
   * A patch with only a group commits just the relink: no song row
   * changes, and it succeeds even for an id no song has.
   */
  lemma UpdateGroupOnly(db: Db, m: Music, id: int, faults: set<Step>)
    requires Consistent(db) && !HasPatch(m) && m.group.name != ""
    ensures UpdateTx(db, m, id, faults).Ok? ==>
              Relink(db, id, m.group.name, faults) == Ok(UpdateTx(db, m, id, faults).value)
              && UpdateTx(db, m, id, faults).value.songs == db.songs
    ensures faults == {} ==> UpdateTx(db, m, id, faults).Ok?
  {
    RelinkSucceeds(db, id, m.group.name, faults);
    if Relink(db, id, m.group.name, faults).Ok? {
      RelinkOutcome(db, id, m.group.name, faults);
    }
  }

  /**
   * A patch that sets a title (and the transaction and check reaching the
   * database) fails with AlreadyExists exactly when another song with that
   * title shares the, possibly new, group of song `id`.
   */
  lemma UpdateTitleCollision(db: Db, m: Music, id: int, faults: set<Step>)
    requires m.song != "" && Begin !in faults && CheckDuplicate !in faults
    requires Relinked(db, m, id, faults).Ok?
    ensures UpdateTx(db, m, id, faults) == Err(AlreadyExists)
        <==> HasDuplicateTitle(Relinked(db, m, id, faults).value, m.song, id)
  {
  }

  /**
   * With no driver failure and no title collision, a patch with a field to
   * set fails with NotFound exactly when no song has the id.
   */
  lemma UpdateNotFound(db: Db, m: Music, id: int)
    requires Consistent(db) && HasPatch(m)
    requires !(m.song != "" && HasDuplicateTitle(Relinked(db, m, id, {}).value, m.song, id))
    ensures UpdateTx(db, m, id, {}) == Err(NotFound) <==> id !in db.songs
  {
    if m.group.name != "" {
      RelinkOutcome(db, id, m.group.name, {});
    }
  }

  /**
   * A successful Update with a field to set changes exactly the row of
   * song `id`, by the partial-update policy, and relinks it when a group is
   * named; without a group the groups and links stay.
   */
  lemma UpdatePatches(db: Db, m: Music, id: int, faults: set<Step>)
    requires Consistent(db) && HasPatch(m) && UpdateTx(db, m, id, faults).Ok?
    ensures var db' := UpdateTx(db, m, id, faults).value;
      && id in db.songs
      && db'.songs == db.songs[id := Patched(db.songs[id], m)]
      && (m.group.name == "" ==> db'.groups == db.groups && db'.links == db.links)
      && (m.group.name != "" ==> m.group.name in db'.groups && db'.links == db.links[id := db'.groups[m.group.name]])
  {
    if m.group.name != "" {
      RelinkOutcome(db, id, m.group.name, faults);
    }
  }

  /** Update keeps the committed state consistent. */
  lemma UpdateKeepsConsistent(db: Db, m: Music, id: int, faults: set<Step>)
    requires Consistent(db) && UpdateTx(db, m, id, faults).Ok?
    ensures Consistent(UpdateTx(db, m, id, faults).value)
  {
    UpdateCommitsRelinked(db, m, id, faults);
    var t1 := Relinked(db, m, id, faults).value;
    if m.group.name != "" {
      RelinkKeepsConsistent(db, id, m.group.name, faults);
    }
    if HasPatch(m) {
      PatchKeepsConsistent(t1, m, id);
    }
  }

  /**
   * A successful Update commits the relinked copy, patched at song `id`
   * when the patch has a field to set.
   */
  lemma UpdateCommitsRelinked(db: Db, m: Music, id: int, faults: set<Step>)
    requires UpdateTx(db, m, id, faults).Ok?
    ensures Relinked(db, m, id, faults).Ok?
    ensures var t1 := Relinked(db, m, id, faults).value;
      && (!HasPatch(m) ==> UpdateTx(db, m, id, faults).value == t1)
      && (HasPatch(m) ==> id in t1.songs && UpdateTx(db, m, id, faults).value == PatchSong(t1, m, id))
  {
  }

  /** Patching a stored song's row keeps a state consistent. */
  lemma PatchKeepsConsistent(db: Db, m: Music, id: int)
    requires Consistent(db) && id in db.songs
    ensures Consistent(PatchSong(db, m, id))
  {
    assert PatchSong(db, m, id).songs.Keys == db.songs.Keys;
  }

  /** On a consistent state, every driver error Update reports comes from a failing call. */
  lemma UpdateInternalIsFault(db: Db, m: Music, id: int, faults: set<Step>)
    requires Consistent(db)
    requires UpdateTx(db, m, id, faults).Err? && UpdateTx(db, m, id, faults).error.Internal?
    ensures UpdateTx(db, m, id, faults).error.step in faults
  {
    if m.group.name != "" && Relink(db, id, m.group.name, faults).Err? {
      RelinkSucceeds(db, id, m.group.name, faults);
      if m.group.name in db.groups {
        assert db.groups[m.group.name] != 0;
      }
    }
  }

  // ---------------------------------------------------------------------
  // GetAll
  // ---------------------------------------------------------------------

  /** GetAll reports NotFound exactly when the page starts at or past the last matching row. */
  lemma GetAllNotFound(scan: seq<Music>, params: Music, countSongs: nat, page: nat, faults: set<Step>)
    requires page >= 1 && countSongs >= 1 && SelectRows !in faults
    ensures GetAllRows(scan, params, countSongs, page, faults) == Err(NotFound)
        <==> |Matching(params, scan)| <= (page - 1) * countSongs
  {
    var p: nat := page - 1;
    var offset: nat := p * countSongs;
    assert offset == (page - 1) * countSongs;
    var ms := Matching(params, scan);
    var rows := Page(ms, countSongs, offset);
    EmptyPage(ms, countSongs, offset);
    GetAllRowsIsPage(scan, params, countSongs, page, faults, offset);
    NotFoundIffEmpty(GetAllRows(scan, params, countSongs, page, faults), rows, |ms| <= offset);
  }

  /** A result that is NotFound exactly for an empty page is NotFound exactly when the page is empty. */
  lemma NotFoundIffEmpty(r: Result<seq<Music>, RepoError>, rows: seq<Music>, empty: bool)
    requires r == (if rows == [] then Err(NotFound) else Ok(rows)) && (rows == [] <==> empty)
    ensures r == Err(NotFound) <==> empty
  {
  }

  /** Without a driver fault, GetAll's outcome is decided by the page of matching rows alone. */
  lemma GetAllRowsIsPage(scan: seq<Music>, params: Music, countSongs: nat, page: nat, faults: set<Step>, offset: nat)
    requires page >= 1 && SelectRows !in faults && offset == (page - 1) * countSongs
    ensures var rows := Page(Matching(params, scan), countSongs, offset);
      GetAllRows(scan, params, countSongs, page, faults) == if rows == [] then Err(NotFound) else Ok(rows)
  {
  }

  /**
   * A successful GetAll returns the matching rows from the page's offset on,
   * in order: a full page of countSongs when enough remain, else all the rest.
   */
  lemma GetAllWindow(scan: seq<Music>, params: Music, countSongs: nat, page: nat, faults: set<Step>)
    requires page >= 1
    ensures var r := GetAllRows(scan, params, countSongs, page, faults);
      var ms := Matching(params, scan);
      var offset := (page - 1) * countSongs;
      r.Ok? ==> && |r.value| == (if countSongs < |ms| - offset then countSongs else |ms| - offset)
                && forall i :: 0 <= i < |r.value| ==> r.value[i] == ms[offset + i]
  {
  }

  /** Every row GetAll returns from a listing of the tables is a stored song. */
  lemma GetAllListed(db: Db, scan: seq<Music>, params: Music, countSongs: nat, page: nat, faults: set<Step>)
    requires IsListing(db, scan) && page >= 1
    ensures var r := GetAllRows(scan, params, countSongs, page, faults);
      r.Ok? ==> forall i :: 0 <= i < |r.value| ==> Listed(db, r.value[i])
  {
    var r := GetAllRows(scan, params, countSongs, page, faults);
    if r.Ok? {
      ScannedRowsListed(db, scan, r.value);
    }
  }

  /** Rows taken from a listing are stored songs. */
  lemma ScannedRowsListed(db: Db, scan: seq<Music>, rows: seq<Music>)
    requires IsListing(db, scan) && forall i :: 0 <= i < |rows| ==> rows[i] in scan
    ensures forall i :: 0 <= i < |rows| ==> Listed(db, rows[i])
  {
    forall i | 0 <= i < |rows| ensures Listed(db, rows[i]) {
      var j :| 0 <= j < |scan| && scan[j] == rows[i];
    }
  }
}
