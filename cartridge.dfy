/** The cartridge session: which cartridge is open, under what name and trust
    level, and the navigation tree built from its rows. The file system, the
    SQLite driver and the signature service are seen only through what they
    answer, passed in as a `LoadEnv`. */
module Cartridge {
  import opened Text
  import Signature

  type TrustLevel = Signature.TrustLevel

  /** QFileInfo::fileName: the part of the path after its last '/'. */
  function FileName(path: string): string {
    if path == [] || path[|path| - 1] == '/' then []
    else FileName(path[..|path| - 1]) + [path[|path| - 1]]
  }

  /** The file name is the longest slash-free suffix of the path. */
  lemma {:induction false} FileNameShape(path: string)
    ensures var r := FileName(path);
      '/' !in r && |r| <= |path| && path[|path| - |r|..] == r
      && (|r| < |path| ==> path[|path| - |r| - 1] == '/')
  {
    if path != [] && path[|path| - 1] != '/' {
      var init, c := path[..|path| - 1], path[|path| - 1];
      FileNameShape(init);
      SnocSuffix(init, c, FileName(init));
    }
  }

  /** Extending a path by one character extends a suffix of it by the same. */
  lemma SnocSuffix(init: string, c: char, r: string)
    requires |r| <= |init| && init[|init| - |r|..] == r
    ensures (init + [c])[|init| - |r|..] == r + [c]
    ensures |r| < |init| ==> (init + [c])[|init| - |r| - 1] == init[|init| - |r| - 1]
  {
  }

  /** The longest prefix of `s` without `c`. */
  function TakeUntil(s: string, c: char): (r: string)
    ensures c !in r
    ensures |r| <= |s| && s[..|r|] == r
    ensures |r| < |s| ==> s[|r|] == c
  {
    if s == [] || s[0] == c then [] else [s[0]] + TakeUntil(s[1..], c)
  }

  /** QFileInfo::baseName: the file name up to (not including) its first '.'. */
  function BaseName(path: string): string {
    TakeUntil(FileName(path), '.')
  }

  /** The base name holds neither '/' nor '.', and is the part of the file
      name before its first '.', or all of it. */
  lemma BaseNameShape(path: string)
    ensures var f := FileName(path); var r := BaseName(path);
      '/' !in r && '.' !in r && |r| <= |f| && f[..|r|] == r && (|r| < |f| ==> f[|r|] == '.')
  {
    FileNameShape(path);
    var f := FileName(path);
    var r := BaseName(path);
    forall x | x in r ensures x in f {
      var i :| 0 <= i < |r| && r[i] == x;
      assert f[..|r|][i] == x;
    }
  }

  /** The base name of a file in a directory is the file's name up to its
      first '.', whatever the directory. */
  lemma BaseNameInDirectory(dir: string, f: string)
    requires '/' !in f
    ensures BaseName(dir + "/" + f) == TakeUntil(f, '.')
  {
    FileNameAfterSlash(dir, f);
  }

  lemma {:induction false} FileNameAfterSlash(dir: string, f: string)
    requires '/' !in f
    ensures FileName(dir + "/" + f) == f
    decreases |f|
  {
    var p := dir + "/" + f;
    if f == [] {
      assert p[|p| - 1] == '/';
    } else {
      assert p[..|p| - 1] == dir + "/" + f[..|f| - 1];
      assert f[|f| - 1] != '/' by { assert f[|f| - 1] in f; }
      assert '/' !in f[..|f| - 1] by {
        forall x | x in f[..|f| - 1] ensures x in f {
          var i :| 0 <= i < |f| - 1 && f[..|f| - 1][i] == x;
          assert f[i] == x;
        }
      }
      FileNameAfterSlash(dir, f[..|f| - 1]);
    }
  }

  /** A file name that does not start with '.' has a non-empty base name. */
  lemma BaseNameNonEmpty(path: string)
    requires FileName(path) != [] && FileName(path)[0] != '.'
    ensures BaseName(path) != []
  {
  }

  // ---------------------------------------------------------------------------
  // Navigation tree

  /** A row of `SELECT id, title, parent_id, type FROM navigation`. */
  datatype NavRow = NavRow(id: string, title: string, parentId: string, kind: string)

  /** A QStandardItem of the navigation model. The forest is kept flat, in the
      order the items were created; `parent` is the index of the item it was
      appended under, or None for a top-level item. Children of an item are
      in the order of their indices. */
  datatype NavNode = NavNode(title: string, kind: string, id: string, parent: Option<nat>)

  /** The index of the last row with the given id, as the `itemMap` built so
      far holds it. */
  function LatestIndex(rows: seq<NavRow>, id: string): (r: Option<nat>)
    ensures r.Some? ==> r.value < |rows| && rows[r.value].id == id
    ensures r.Some? ==> forall j :: r.value < j < |rows| ==> rows[j].id != id
    ensures r.None? <==> forall j :: 0 <= j < |rows| ==> rows[j].id != id
  {
    if rows == [] then None
    else if rows[|rows| - 1].id == id then Some(|rows| - 1)
    else LatestIndex(rows[..|rows| - 1], id)
  }

  /** The `itemMap` after the given rows: each id mapped to the index of
      the latest row carrying it. */
  function LatestMap(rows: seq<NavRow>): map<string, nat> {
    if rows == [] then map[]
    else LatestMap(rows[..|rows| - 1])[rows[|rows| - 1].id := |rows| - 1]
  }

  /** The map built row by row is LatestIndex: it holds an id exactly when
      some row carries it, and then the latest such row. */
  lemma {:induction false} LatestMapIndex(rows: seq<NavRow>, id: string)
    ensures id in LatestMap(rows) <==> LatestIndex(rows, id).Some?
    ensures id in LatestMap(rows) ==> LatestMap(rows)[id] == LatestIndex(rows, id).value
    decreases |rows|
  {
    if rows != [] {
      LatestMapIndex(rows[..|rows| - 1], id);
    }
  }

  /** One more row: its id now maps to it. */
  lemma LatestMapSnoc(rows: seq<NavRow>, i: nat)
    requires i < |rows|
    ensures LatestMap(rows[..i + 1]) == LatestMap(rows[..i])[rows[i].id := i]
  {
    assert rows[..i + 1][..i] == rows[..i];
  }

  /** Where row `k` goes: at the top when its parent id is empty, under the
      latest earlier row with that id when there is one, and otherwise at the
      top as well. */
  function NodeFor(rows: seq<NavRow>, k: nat): (n: NavNode)
    requires k < |rows|
    ensures n.parent.Some? ==> n.parent.value < k
  {
    var row := rows[k];
    var parent := if row.parentId == [] then None else LatestIndex(rows[..k], row.parentId);
    NavNode(row.title, row.kind, row.id, parent)
  }

  /** The parent the map gives row `i` is the one NodeFor places it under. */
  lemma MapParent(rows: seq<NavRow>, i: nat)
    requires i < |rows|
    ensures var m, p := LatestMap(rows[..i]), rows[i].parentId;
      NodeFor(rows, i) == NavNode(rows[i].title, rows[i].kind, rows[i].id,
        if p != [] && p in m then Some(m[p]) else None)
  {
    LatestMapIndex(rows[..i], rows[i].parentId);
  }

  /** The items of the first `n` rows. */
  function NavPrefix(rows: seq<NavRow>, n: nat): (r: seq<NavNode>)
    requires n <= |rows|
    ensures |r| == n && forall k :: 0 <= k < n ==> r[k] == NodeFor(rows, k)
  {
    seq(n, k requires 0 <= k < n => NodeFor(rows, k))
  }

  lemma NavPrefixSnoc(rows: seq<NavRow>, n: nat)
    requires n < |rows|
    ensures NavPrefix(rows, n + 1) == NavPrefix(rows, n) + [NodeFor(rows, n)]
  {
  }

  /** The navigation model for the rows of a successful query, or the single
      placeholder root named after the cartridge when the query fails. */
  function Navigation(query: Option<seq<NavRow>>, cartridgeName: string): (r: seq<NavNode>)
    ensures query.Some? ==> |r| == |query.value|
    ensures query.None? ==> r == [NavNode(cartridgeName, "corpus", "", None)]
  {
    match query
    case None => [NavNode(cartridgeName, "corpus", "", None)]
    case Some(rows) => NavPrefix(rows, |rows|)
  }

  /** The tree placement: every row gives one item, in row order, carrying its
      title, type and id; an item with a parent sits under an earlier item
      whose id is its parent id and no item between them has that id; an item
      is at the top exactly when its parent id is empty or names no earlier
      row. */
  lemma NavigationPlacement(rows: seq<NavRow>, name: string, k: nat)
    requires k < |rows|
    ensures var n := Navigation(Some(rows), name)[k];
      n.title == rows[k].title && n.kind == rows[k].kind && n.id == rows[k].id
    ensures var n := Navigation(Some(rows), name)[k];
      n.parent.Some? ==> (n.parent.value < k && rows[n.parent.value].id == rows[k].parentId
        && forall j :: n.parent.value < j < k ==> rows[j].id != rows[k].parentId)
    ensures var n := Navigation(Some(rows), name)[k];
      n.parent.None? <==> (rows[k].parentId == [] || forall j :: 0 <= j < k ==> rows[j].id != rows[k].parentId)
  {
    var n := Navigation(Some(rows), name)[k];
    assert n == NodeFor(rows, k);
    var p := rows[k].parentId;
    if p != [] {
      var l := LatestIndex(rows[..k], p);
      if l.Some? {
        assert rows[..k][l.value] == rows[l.value];
        forall j | l.value < j < k ensures rows[j].id != p {
          assert rows[..k][j] == rows[j];
        }
      } else {
        forall j | 0 <= j < k ensures rows[j].id != p {
          assert rows[..k][j] == rows[j];
        }
      }
    }
  }

  /** A child listed before its parent is not attached to it: it stays at the
      top. */
  lemma ForwardReferenceAtRoot(rows: seq<NavRow>, name: string)
    requires |rows| == 2 && rows[0].parentId == rows[1].id && rows[0].parentId != []
    ensures Navigation(Some(rows), name)[0].parent == None
  {
    assert Navigation(Some(rows), name)[0] == NodeFor(rows, 0);
  }

  // ---------------------------------------------------------------------------
  // Session state

  /** What QSqlDatabase::open reports. */
  datatype OpenResult = Opened | OpenFailed(error: string)

  /** Everything loadCartridge learns from outside: whether the file exists
      and is readable, whether the database opens, whether the table query
      succeeds, the verdict the signature service gives for this path, and
      the navigation rows (None when that query fails). */
  datatype LoadEnv = LoadEnv(
    readable: bool,
    open: OpenResult,
    structureOk: bool,
    verdict: TrustLevel,
    navigation: Option<seq<NavRow>>)

  /** The service's signals. */
  datatype CartridgeEvent =
    | CartridgeLoaded(name: string)
    | CartridgeUnloaded
    | TrustLevelDetermined(level: TrustLevel)
    | ErrorOccurred(message: string)

  /** The error loadCartridge reports, from the first check that fails: the
      file, then the database, then the table query. */
  function LoadFailure(path: string, env: LoadEnv): (r: Option<string>)
    ensures r.None? <==> env.readable && env.open.Opened? && env.structureOk
  {
    if !env.readable then Some("Cartridge file not found or not readable: " + path)
    else if env.open.OpenFailed? then Some("Failed to open cartridge: " + env.open.error)
    else if !env.structureOk then Some("Failed to query cartridge structure")
    else None
  }

  /** What unloading a loaded cartridge announces, and an unloaded one does not. */
  function UnloadEvents(wasLoaded: bool): (r: seq<CartridgeEvent>)
    ensures |r| <= 1 && (r != [] <==> wasLoaded)
  {
    if wasLoaded then [CartridgeUnloaded] else []
  }

  class CartridgeService {
    var cartridgePath: string
    var cartridgeName: string
    var isLoaded: bool
    var trustLevel: TrustLevel
    var navigation: seq<NavNode>
    var hasSignatureService: bool

    /** An unloaded service holds no path, no name and an empty model. */
    ghost predicate Valid()
      reads this
    {
      !isLoaded ==> cartridgePath == [] && cartridgeName == [] && navigation == []
    }

    /** A new service: unloaded, no signature service, trust level Unverified. */
    constructor ()
      ensures Valid()
      ensures !isLoaded && cartridgePath == [] && cartridgeName == [] && navigation == []
      ensures trustLevel == Signature.Unverified && !hasSignatureService
    {
      cartridgePath := [];
      cartridgeName := [];
      isLoaded := false;
      trustLevel := Signature.Unverified;
      navigation := [];
      hasSignatureService := false;
    }

    /** setSignatureService, with or without a service. */
    method SetSignatureService(present: bool)
      modifies this`hasSignatureService
      ensures hasSignatureService == present
    {
      hasSignatureService := present;
    }

    /** unloadCartridge: nothing when unloaded; otherwise forgets the path,
        the name and the navigation model, keeps the trust level and emits
        cartridgeUnloaded. */
    method UnloadCartridge() returns (emitted: seq<CartridgeEvent>)
      requires Valid()
      modifies this`cartridgePath, this`cartridgeName, this`isLoaded, this`navigation
      ensures Valid() && !isLoaded
      ensures cartridgePath == [] && cartridgeName == [] && navigation == []
      ensures trustLevel == old(trustLevel)
      ensures emitted == UnloadEvents(old(isLoaded))
    {
      emitted := [];
      if isLoaded {
        cartridgePath := [];
        cartridgeName := [];
        isLoaded := false;
        navigation := [];
        emitted := [CartridgeUnloaded];
      }
    }

    /** buildNavigationModel: one item per row; `itemMap` remembers, for each
        id, the latest item that carried it. */
    method BuildNavigationModel(query: Option<seq<NavRow>>)
      modifies this`navigation
      ensures navigation == Navigation(query, cartridgeName)
    {
      navigation := [];
      if query.None? {
        navigation := [NavNode(cartridgeName, "corpus", "", None)];
        return;
      }
      var rows := query.value;
      var itemMap: map<string, nat> := map[];
      var i := 0;
      while i < |rows|
        invariant 0 <= i <= |rows|
        invariant navigation == NavPrefix(rows, i)
        invariant itemMap == LatestMap(rows[..i])
      {
        var row := rows[i];
        var parent := if row.parentId != [] && row.parentId in itemMap then Some(itemMap[row.parentId]) else None;
        MapParent(rows, i);
        NavPrefixSnoc(rows, i);
        navigation := navigation + [NavNode(row.title, row.kind, row.id, parent)];
        LatestMapSnoc(rows, i);
        itemMap := itemMap[row.id := i];
        i := i + 1;
      }
    }

    /** loadCartridge: unloads first, then fails on an unreadable file, a
        database that does not open or a failing table query, in that order;
        on success takes the trust level from the signature service
        (Unverified without one) and announces it, records the path and base
        name, builds the navigation and announces the cartridge. The signals
        are returned in the order they are emitted. */
    method LoadCartridge(path: string, env: LoadEnv) returns (ok: bool, events: seq<CartridgeEvent>)
      requires Valid()
      modifies this`cartridgePath, this`cartridgeName, this`isLoaded, this`navigation, this`trustLevel
      ensures Valid()
      ensures ok <==> LoadFailure(path, env).None?
      ensures isLoaded == ok
      ensures !ok ==> trustLevel == old(trustLevel)
      ensures !ok ==> events == UnloadEvents(old(isLoaded)) + [ErrorOccurred(LoadFailure(path, env).value)]
      ensures ok ==> cartridgePath == path && cartridgeName == BaseName(path)
      ensures ok ==> trustLevel == (if hasSignatureService then env.verdict else Signature.Unverified)
      ensures ok ==> navigation == Navigation(env.navigation, BaseName(path))
      ensures ok ==> events == UnloadEvents(old(isLoaded)) + [TrustLevelDetermined(trustLevel), CartridgeLoaded(BaseName(path))]
    {
      events := [];
      if isLoaded {
        events := UnloadCartridge();
      }
      if !env.readable {
        return false, events + [ErrorOccurred("Cartridge file not found or not readable: " + path)];
      }
      if env.open.OpenFailed? {
        return false, events + [ErrorOccurred("Failed to open cartridge: " + env.open.error)];
      }
      if !env.structureOk {
        return false, events + [ErrorOccurred("Failed to query cartridge structure")];
      }
      if hasSignatureService {
        trustLevel := env.verdict;
      } else {
        trustLevel := Signature.Unverified;
      }
      events := events + [TrustLevelDetermined(trustLevel)];
      cartridgePath := path;
      cartridgeName := BaseName(path);
      isLoaded := true;
      BuildNavigationModel(env.navigation);
      return true, events + [CartridgeLoaded(cartridgeName)];
    }

    /** getDatabase: a handle only while a cartridge is loaded. */
    function HasDatabase(): (r: bool)
      reads this
      requires Valid()
      ensures r <==> isLoaded
      ensures !r ==> cartridgePath == [] && cartridgeName == [] && navigation == []
    {
      isLoaded
    }

    /** getDocumentContent, given what the content query returns (None when
        it finds no row): empty when unloaded or when there is no such
        document. */
    function GetDocumentContent(stored: Option<string>): (r: string)
      reads this
      ensures !isLoaded ==> r == []
      ensures isLoaded && stored.Some? ==> r == stored.value
      ensures stored.None? ==> r == []
    {
      if !isLoaded then [] else match stored case Some(c) => c case None => []
    }

    /** getDocumentList, given the id column of the documents query (None when
        the query fails). */
    method GetDocumentList(ids: Option<seq<string>>) returns (documents: seq<string>)
      ensures !isLoaded || ids.None? ==> documents == []
      ensures isLoaded && ids.Some? ==> documents == ids.value
    {
      documents := [];
      if !isLoaded || ids.None? {
        return;
      }
      var rows := ids.value;
      var i := 0;
      while i < |rows|
        invariant 0 <= i <= |rows|
        invariant documents == rows[..i]
      {
        documents := documents + [rows[i]];
        i := i + 1;
      }
      assert rows[..|rows|] == rows;
    }
  }

  /** A failed reload leaves nothing loaded but keeps the previous cartridge's
      trust level. */
  method FailedReloadKeepsTrust(service: CartridgeService, path: string, env: LoadEnv)
    requires service.Valid() && service.isLoaded && !env.readable
    modifies service
    ensures !service.isLoaded && service.cartridgePath == [] && service.cartridgeName == []
    ensures service.trustLevel == old(service.trustLevel)
  {
    var ok, events := service.LoadCartridge(path, env);
  }
}
