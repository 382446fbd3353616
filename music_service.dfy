/**
 * The music service of the current revision (internal/services/music/music.go):
 * it calls the repository, re-raises the repository's NotFound and
 * AlreadyExists sentinels as its own, maps rows for output, and pages
 * lyrics by whole groups of verses. The repository is an interface to
 * the service, so each operation takes the repository's answer.
 */
module MusicService {
  import opened Outcomes
  import opened Models
  import opened MusicStore
  import opened Verses
  import StoreProperties

  /** The service's errors: its two sentinels, a wrapped repository error, or a patch that could not be mapped. */
  datatype ServiceError = MusicNotFound | MusicAlreadyExists | Wrapped(cause: RepoError) | MappingFailed

  /** What `errors.Is` can tell about an error: which sentinel, if any, it carries. */
  datatype ErrorKind = NotFoundKind | AlreadyExistsKind | OtherKind

  function RepoKind(e: RepoError): ErrorKind
  {
    match e
    case NotFound => NotFoundKind
    case AlreadyExists => AlreadyExistsKind
    case _ => OtherKind
  }

  function Kind(e: ServiceError): ErrorKind
  {
    match e
    case MusicNotFound => NotFoundKind
    case MusicAlreadyExists => AlreadyExistsKind
    case Wrapped(c) => RepoKind(c)
    case MappingFailed => OtherKind
  }

  /** The error is one of the service's own sentinels. */
  predicate IsSentinel(e: ServiceError)
  {
    e.MusicNotFound? || e.MusicAlreadyExists?
  }

  /** The repository sentinels each operation re-raises as its own. */
  const AddMapped: set<RepoError> := {AlreadyExists}
  const UpdateMapped: set<RepoError> := {NotFound, AlreadyExists}
  const ReadMapped: set<RepoError> := {NotFound}

  /**
   * The translation policy: a repository sentinel in `mapped` becomes the
   * service sentinel of the same kind; anything else is wrapped unchanged.
   */
  function Translate(e: RepoError, mapped: set<RepoError>): (r: ServiceError)
    requires mapped <= {NotFound, AlreadyExists}
    ensures Kind(r) == RepoKind(e)
    ensures IsSentinel(r) <==> e in mapped
    ensures !IsSentinel(r) ==> r == Wrapped(e)
  {
    if e in mapped then (if e == NotFound then MusicNotFound else MusicAlreadyExists) else Wrapped(e)
  }

  /** Add: the id, or 0 with AlreadyExists re-raised and any other error wrapped. */
  function Add(repo: Result<int, RepoError>): (r: (int, Option<ServiceError>))
    ensures repo.Ok? ==> r == (repo.value, None)
    ensures repo.Err? ==> r.0 == 0 && r.1 == Some(Translate(repo.error, AddMapped))
  {
    match repo
    case Err(e) =>
      if e == AlreadyExists then (0, Some(MusicAlreadyExists)) else (0, Some(Wrapped(e)))
    case Ok(id) => (id, None)
  }

  /** Delete: NotFound re-raised, any other error wrapped. */
  function Delete(repo: Option<RepoError>): (r: Option<ServiceError>)
    ensures repo.None? <==> r.None?
    ensures repo.Some? ==> r == Some(Translate(repo.value, ReadMapped))
  {
    match repo
    case None => None
    case Some(e) => if e == NotFound then Some(MusicNotFound) else Some(Wrapped(e))
  }

  /**
   * Update: a patch that cannot be mapped (its date does not parse) fails
   * before the repository is called; otherwise NotFound and AlreadyExists
   * are re-raised and anything else wrapped.
   */
  function Update(mapped: Option<Music>, repo: Option<RepoError>): (r: Option<ServiceError>)
    ensures mapped.None? ==> r == Some(MappingFailed)
    ensures mapped.Some? ==> (r.None? <==> repo.None?)
    ensures mapped.Some? && repo.Some? ==> r == Some(Translate(repo.value, UpdateMapped))
  {
    if mapped.None? then Some(MappingFailed)
    else match repo
      case None => None
      case Some(e) =>
        if e == NotFound then Some(MusicNotFound)
        else if e == AlreadyExists then Some(MusicAlreadyExists)
        else Some(Wrapped(e))
  }

  /** The output shape of a song: title, group name, link and date (the mapper does not copy the id). */
  datatype MusicToGet = MusicToGet(id: int, song: string, group: string, link: string, releaseDate: Date)

  /** MusicForGet. */
  function ForGet(m: Music): MusicToGet
  {
    MusicToGet(0, m.song, m.group.name, m.link, m.releaseDate)
  }

  /** Get: the song mapped for output; NotFound re-raised, any other error wrapped. */
  function Get(repo: Result<Music, RepoError>): (r: Result<MusicToGet, ServiceError>)
    ensures repo.Ok? ==> r == Ok(ForGet(repo.value))
    ensures repo.Err? ==> r == Err(Translate(repo.error, ReadMapped))
  {
    match repo
    case Err(e) => if e == NotFound then Err(MusicNotFound) else Err(Wrapped(e))
    case Ok(m) => Ok(ForGet(m))
  }

  /** GetAll: one mapped item per repository row, in the same order; NotFound re-raised. */
  method GetAll(repo: Result<seq<Music>, RepoError>) returns (r: Result<seq<MusicToGet>, ServiceError>)
    ensures repo.Err? ==> r == Err(Translate(repo.error, ReadMapped))
    ensures repo.Ok? ==> r.Ok? && |r.value| == |repo.value|
    ensures repo.Ok? ==> forall i :: 0 <= i < |repo.value| ==> r.value[i] == ForGet(repo.value[i])
  {
    if repo.Err? {
      if repo.error == NotFound {
        return Err(MusicNotFound);
      }
      return Err(Wrapped(repo.error));
    }
    var res := repo.value;
    var arr := new MusicToGet[|res|];
    for i := 0 to |res|
      invariant forall k :: 0 <= k < i ==> arr[k] == ForGet(res[k])
    {
      arr[i] := ForGet(res[i]);
    }
    return Ok(arr[..]);
  }

  // ---------------------------------------------------------------------
  // Lyrics by pages of countVerse verses
  // ---------------------------------------------------------------------

  /** Multiplying by a natural number keeps the order of its factors. */
  lemma {:induction false} MulMonotone(c: nat, a: nat, b: nat)
    requires a <= b
    ensures c * a <= c * b
    decreases b - a
  {
    if a < b {
      MulMonotone(c, a, b - 1);
      assert c * b == c * (b - 1) + c;
    }
  }

  /** `n / c >= p` (Go's integer division on non-negative values) exactly when p whole groups of c fit in n. */
  lemma DivFits(n: nat, c: nat, p: nat)
    requires c >= 1
    ensures p <= n / c <==> c * p <= n
  {
    var q := n / c;
    assert n == c * q + n % c && 0 <= n % c < c;
    if p <= q {
      MulMonotone(c, p, q);
    } else {
      MulMonotone(c, q + 1, p);
      assert c * (q + 1) == c * q + c;
    }
  }

  /**
   * GetText: a repository error is re-raised (NotFound as the service's
   * sentinel) before any paging; the text is split into verses and a page
   * beyond the last whole page is NotFound; otherwise the page's verses
   * are re-joined. The handler guarantees countVerse >= 1 and page >= 1.
   */
  function GetText(repo: Result<string, RepoError>, countVerse: int, page: int): (r: Result<string, ServiceError>)
    requires countVerse >= 1 && page >= 1
    ensures repo.Err? ==> r == Err(Translate(repo.error, ReadMapped))
    ensures repo.Ok? ==> (r.Ok? <==> countVerse * page <= |Split(repo.value)|)
    ensures repo.Ok? && r.Err? ==> r.error == MusicNotFound
    ensures r.Ok? ==> var verses := Split(repo.value);
      && 0 <= countVerse * (page - 1) <= countVerse * page <= |verses|
      && r.value == Join(verses[countVerse * (page - 1) .. countVerse * page])
  {
    match repo
    case Err(e) => if e == NotFound then Err(MusicNotFound) else Err(Wrapped(e))
    case Ok(text) =>
      var verses := Split(text);
      DivFits(|verses|, countVerse, page);
      if |verses| / countVerse < page then Err(MusicNotFound)
      else
        var start := countVerse * (page - 1);
        var end := countVerse * (page - 1) + countVerse;
        assert end == countVerse * page;
        Ok(Join(verses[start..end]))
  }

  /** The first page holding every verse is the stored text itself. */
  lemma WholeTextPage(text: string)
    ensures GetText(Ok(text), |Split(text)|, 1) == Ok(text)
  {
    var verses := Split(text);
    assert verses[0..|verses|] == verses;
    JoinSplit(text);
  }

  /** A trailing page with fewer than countVerse verses left is never returned. */
  lemma PartialPageRejected(text: string, countVerse: int, page: int)
    requires countVerse >= 1 && page >= 1
    requires countVerse * (page - 1) < |Split(text)| < countVerse * page
    ensures GetText(Ok(text), countVerse, page) == Err(MusicNotFound)
  {
  }

  /** Consecutive accepted pages are consecutive windows of verses, so pages never overlap or skip a verse. */
  lemma PagesAreConsecutive(text: string, countVerse: int, page: int)
    requires countVerse >= 1 && page >= 1
    requires GetText(Ok(text), countVerse, page + 1).Ok?
    ensures GetText(Ok(text), countVerse, page).Ok?
    ensures var verses := Split(text);
      GetText(Ok(text), countVerse, page + 1).value
        == Join(verses[countVerse * page .. countVerse * page + countVerse])
  {
    assert countVerse * (page + 1) == countVerse * page + countVerse;
    assert countVerse * page <= countVerse * (page + 1);
  }

  // ---------------------------------------------------------------------
  // Through the repository
  // ---------------------------------------------------------------------

  /**
   * Lyrics read back after Add: asking for the song's title and group with
   * one page holding all its verses returns exactly the text it was added
   * with.
   */
  lemma AddThenReadLyrics(db: Db, m: Music, faults: set<Step>, scan: seq<Music>, readFaults: set<Step>)
    requires Consistent(db) && AddTx(db, m, faults).Ok?
    requires IsListing(AddTx(db, m, faults).value.1, scan)
    requires SelectOne !in readFaults
    ensures GetText(MusicStore.GetText(scan, m.song, m.group.name, readFaults), |Split(m.text)|, 1) == Ok(m.text)
  {
    StoreProperties.AddThenGet(db, m, faults, scan, readFaults);
    WholeTextPage(m.text);
  }
}
