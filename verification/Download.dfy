/** server/http/web_routes.cpp, the pgn.gz download: a content provider that is called again and again
    and merges batches of rows against a manifest fixed when the download began (server/reports.cpp). */
module Download {
  import opened Pgn

  type Bytes = seq<bv8>

  /** A row of game_pgns, and what the manifest noted of it. */
  datatype Chunk = Chunk(id: int, gz: Bytes)
  datatype Entry = Entry(id: int, size: nat)

  ghost predicate Ascending(rows: seq<Chunk>) {
    forall i, j | 0 <= i < j < |rows| :: rows[i].id < rows[j].id
  }

  ghost predicate EntriesAscend(manifest: seq<Entry>) {
    forall i, j | 0 <= i < j < |manifest| :: manifest[i].id < manifest[j].id
  }

  predicate Has(rows: seq<Chunk>, c: Chunk) { c in rows }

  /** The row the manifest entry announced: still there, with the announced size. */
  ghost predicate Announced(rows: seq<Chunk>, e: Entry, gz: Bytes) {
    Has(rows, Chunk(e.id, gz)) && |gz| == e.size
  }

  lemma OneRow(rows: seq<Chunk>, a: Chunk, b: Chunk)
    requires Ascending(rows) && Has(rows, a) && Has(rows, b) && a.id == b.id
    ensures a == b
  {
    var i :| 0 <= i < |rows| && rows[i] == a;
    var j :| 0 <= j < |rows| && rows[j] == b;
  }

  // ---------------------------------------------------------------------------
  // Manifest and ranges
  // ---------------------------------------------------------------------------

  /** pgn_manifest: the wanted rows, in id order. */
  function Manifest(rows: seq<Chunk>, wanted: set<int>): (m: seq<Entry>)
  {
    if rows == [] then []
    else Manifest(rows[..|rows| - 1], wanted)
         + if rows[|rows| - 1].id in wanted then [Entry(rows[|rows| - 1].id, |rows[|rows| - 1].gz|)] else []
  }

  lemma {:induction false} ManifestAscends(rows: seq<Chunk>, wanted: set<int>)
    requires Ascending(rows)
    ensures EntriesAscend(Manifest(rows, wanted))
    ensures forall e | e in Manifest(rows, wanted) :: exists c :: c in rows && c.id == e.id && |c.gz| == e.size
    decreases |rows|
  {
    if rows != [] {
      var last := rows[|rows| - 1];
      ManifestAscends(rows[..|rows| - 1], wanted);
      forall e | e in Manifest(rows, wanted)
        ensures exists c :: c in rows && c.id == e.id && |c.gz| == e.size
        ensures e in Manifest(rows[..|rows| - 1], wanted) ==> e.id < last.id
      {
        if e in Manifest(rows[..|rows| - 1], wanted) {
          var c :| c in rows[..|rows| - 1] && c.id == e.id && |c.gz| == e.size;
          assert c in rows;
        } else {
          assert last in rows;
        }
      }
    }
  }

  /** pgn_range: the rows with ids from first to last, in id order. */
  function Range(rows: seq<Chunk>, first: int, last: int): (batch: seq<Chunk>)
  {
    if rows == [] then []
    else if first <= rows[0].id <= last then [rows[0]] + Range(rows[1..], first, last)
    else Range(rows[1..], first, last)
  }

  lemma {:induction false} RangeIs(rows: seq<Chunk>, first: int, last: int)
    requires Ascending(rows)
    ensures Ascending(Range(rows, first, last))
    ensures forall c :: Has(Range(rows, first, last), c) <==> Has(rows, c) && first <= c.id <= last
    decreases |rows|
  {
    if rows != [] {
      RangeIs(rows[1..], first, last);
      assert forall c :: Has(rows, c) <==> c == rows[0] || Has(rows[1..], c);
      var tail := Range(rows[1..], first, last);
      if first <= rows[0].id <= last {
        assert forall c :: Has([rows[0]] + tail, c) <==> c == rows[0] || Has(tail, c);
        forall j | 0 <= j < |tail| ensures rows[0].id < tail[j].id {
          assert Has(tail, tail[j]);
          assert Has(rows[1..], tail[j]);
        }
      }
    }
  }

  // ---------------------------------------------------------------------------
  // What is to be written
  // ---------------------------------------------------------------------------

  /** The members for some entries: the game's bytes, then the separator. */
  function Members(parts: seq<Bytes>, separator: Bytes): Bytes {
    if parts == [] then [] else Members(parts[..|parts| - 1], separator) + parts[|parts| - 1] + separator
  }

  /** The Content-Length announced. */
  function TotalSize(manifest: seq<Entry>, separator: Bytes): nat {
    if manifest == [] then 0
    else TotalSize(manifest[..|manifest| - 1], separator) + manifest[|manifest| - 1].size + |separator|
  }

  /** parts are the announced bytes of the first entries. */
  ghost predicate Fits(manifest: seq<Entry>, parts: seq<Bytes>) {
    |parts| <= |manifest| && forall i | 0 <= i < |parts| :: |parts[i]| == manifest[i].size
  }

  lemma {:induction false} MembersSize(manifest: seq<Entry>, parts: seq<Bytes>, separator: Bytes)
    requires Fits(manifest, parts)
    ensures |Members(parts, separator)| == TotalSize(manifest[..|parts|], separator)
    decreases |parts|
  {
    if parts != [] {
      var n := |parts| - 1;
      MembersSize(manifest, parts[..n], separator);
      assert manifest[..n + 1][..n] == manifest[..n];
    }
  }

  lemma {:induction false} SizeGrows(manifest: seq<Entry>, separator: Bytes, n: nat)
    requires n <= |manifest|
    ensures TotalSize(manifest[..n], separator) <= TotalSize(manifest, separator)
    decreases |manifest| - n
  {
    if n < |manifest| {
      assert manifest[..n + 1][..n] == manifest[..n];
      SizeGrows(manifest, separator, n + 1);
    } else {
      assert manifest[..n] == manifest;
    }
  }

  const BATCH: nat := 200

  // ---------------------------------------------------------------------------
  // The provider
  // ---------------------------------------------------------------------------

  class Provider {
    const manifest: seq<Entry>
    const separator: Bytes
    /** The shared cursor into the manifest, and what the sink has received. */
    var next: nat
    var written: Bytes
    /** The members written completely. */
    ghost var parts: seq<Bytes>
    /** A write was refused or a game was not what it was announced to be. */
    var failed: bool

    ghost predicate Valid()
      reads this
    {
      && EntriesAscend(manifest)
      && next <= |manifest|
      && Fits(manifest, parts)
      && (!failed ==> |parts| == next && written == Members(parts, separator))
      && (failed ==> Members(parts, separator) <= written && |written| <= TotalSize(manifest, separator))
    }

    constructor (manifest: seq<Entry>, separator: Bytes)
      requires EntriesAscend(manifest)
      ensures Valid() && this.manifest == manifest && this.separator == separator && next == 0 && written == [] && parts == [] && !failed
    {
      this.manifest, this.separator := manifest, separator;
      next, written, parts, failed := 0, [], [], false;
    }

    /** The loop over total. */
    method ContentLength() returns (total: nat)
      ensures total == TotalSize(manifest, separator)
    {
      total := 0;
      for i := 0 to |manifest|
        invariant total == TotalSize(manifest[..i], separator)
      {
        assert manifest[..i + 1][..i] == manifest[..i];
        total := total + manifest[i].size + |separator|;
      }
      assert manifest[..|manifest|] == manifest;
    }

    /** Skipping rows the manifest does not want: the first row of the batch not before id. */
    static method Skip(batch: seq<Chunk>, from: nat, id: int) returns (bi: nat)
      requires from <= |batch|
      ensures from <= bi <= |batch| && (forall k | from <= k < bi :: batch[k].id < id)
      ensures bi < |batch| ==> batch[bi].id >= id
    {
      bi := from;
      while bi < |batch| && batch[bi].id < id
        invariant from <= bi <= |batch| && forall k | from <= k < bi :: batch[k].id < id
      {
        bi := bi + 1;
      }
    }

    /** One game of the batch to the sink, its separator after it. accepts tells which of the two
        writes the sink takes. */
    method WriteGame(gz: Bytes, accepts: (bool, bool)) returns (ok: bool)
      requires Valid() && !failed && next < |manifest| && |gz| == manifest[next].size
      modifies this
      ensures Valid() && (ok <==> !failed) && (ok <==> accepts.0 && accepts.1)
      ensures ok ==> next == old(next) + 1 && parts == old(parts) + [gz]
      ensures !ok ==> next == old(next) && parts == old(parts)
    {
      Room();
      if !accepts.0 {
        failed := true;
        return false;
      }
      written := written + gz;
      if !accepts.1 {
        failed := true;
        return false;
      }
      written := written + separator;
      parts := parts + [gz];
      assert parts[..|parts| - 1] == old(parts);
      next := next + 1;
      ok := true;
    }

    /** The next game still fits into the announced length. */
    lemma Room()
      requires Valid() && !failed && next < |manifest|
      ensures |written| + manifest[next].size + |separator| <= TotalSize(manifest, separator)
    {
      MembersSize(manifest, parts, separator);
      SizeGrows(manifest, separator, next + 1);
      assert manifest[..next + 1][..next] == manifest[..next];
    }

    /** Why a call stops at an entry: the sink refused a write, or the table has no such game. */
    static ghost predicate Stuck(rows: seq<Chunk>, e: Entry, accepts: (bool, bool)) {
      !accepts.0 || !accepts.1 || forall gz :: !Announced(rows, e, gz)
    }

    static ghost predicate Between(rows: seq<Chunk>, batch: seq<Chunk>, first: int, last: int) {
      && Ascending(batch)
      && forall c :: Has(batch, c) <==> Has(rows, c) && first <= c.id <= last
    }

    /** The next game the manifest wants: found in the batch and written. */
    method WriteNext(batch: seq<Chunk>, from: nat, accepts: (bool, bool), ghost rows: seq<Chunk>, ghost first: int, ghost last: int)
      returns (ok: bool, bi: nat)
      requires Valid() && !failed && next < |manifest| && Ascending(rows) && Between(rows, batch, first, last)
      requires first <= manifest[next].id <= last
      requires from <= |batch| && forall k | 0 <= k < from :: batch[k].id < manifest[next].id
      modifies this
      ensures Valid() && (ok <==> !failed) && bi <= |batch|
      ensures ok ==> next == old(next) + 1 && old(parts) <= parts && |parts| == next
                     && Announced(rows, manifest[next - 1], parts[next - 1])
                     && forall k | 0 <= k < bi :: batch[k].id < manifest[next - 1].id
      ensures !ok ==> next == old(next) && |parts| == next && parts == old(parts) && Stuck(rows, manifest[next], accepts)
    {
      var want := manifest[next];
      bi := Skip(batch, from, want.id);
      if bi == |batch| || batch[bi].id != want.id || |batch[bi].gz| != want.size {
        NotThere(rows, batch, bi, first, last, want);
        Room();
        failed := true;
        return false, bi;
      }
      assert Has(batch, batch[bi]) && batch[bi] == Chunk(want.id, batch[bi].gz);
      ok := WriteGame(batch[bi].gz, accepts);
    }

    /** The loop over the batch, up to entry end. */
    method WriteBatch(batch: seq<Chunk>, end: nat, accepts: nat -> (bool, bool), ghost rows: seq<Chunk>) returns (ok: bool)
      requires Valid() && !failed && next < end <= |manifest| && Ascending(rows)
      requires Between(rows, batch, manifest[next].id, manifest[end - 1].id)
      modifies this
      ensures Valid() && (ok <==> !failed) && (ok ==> next == end)
      ensures Continues(rows, old(parts), parts)
      ensures !ok ==> |parts| < |manifest| && Stuck(rows, manifest[|parts|], accepts(|parts|))
    {
      var bi: nat := 0;
      ghost var first, last := manifest[next].id, manifest[end - 1].id;
      ok := true;
      while next < end && ok
        invariant Valid() && (ok <==> !failed) && old(next) <= next <= end && bi <= |batch|
        invariant ok && next < end ==> forall k | 0 <= k < bi :: batch[k].id < manifest[next].id
        invariant Continues(rows, old(parts), parts)
        invariant !ok ==> |parts| < |manifest| && Stuck(rows, manifest[|parts|], accepts(|parts|))
        decreases ok, end - next
      {
        ghost var before := parts;
        ok, bi := WriteNext(batch, bi, accepts(next), rows, first, last);
        OneMore(rows, old(parts), before, parts);
      }
    }

    /** now continues before by announced games. */
    ghost predicate Continues(rows: seq<Chunk>, before: seq<Bytes>, now: seq<Bytes>) {
      && before <= now && |now| <= |manifest|
      && forall i | |before| <= i < |now| :: Announced(rows, manifest[i], now[i])
    }

    lemma OneMore(rows: seq<Chunk>, start: seq<Bytes>, before: seq<Bytes>, now: seq<Bytes>)
      requires Continues(rows, start, before)
      requires now == before || (before <= now && |now| == |before| + 1 <= |manifest| && Announced(rows, manifest[|before|], now[|before|]))
      ensures Continues(rows, start, now)
    {
    }

    /** One call of the content provider. rows is the table as the call's query finds it. */
    method Provide(rows: seq<Chunk>, accepts: nat -> (bool, bool)) returns (ok: bool)
      requires Valid() && !failed && Ascending(rows)
      modifies this
      ensures Valid() && (ok <==> !failed)
      ensures ok ==> next == if old(next) + 200 < |manifest| then old(next) + 200 else |manifest|
      ensures Continues(rows, old(parts), parts)
      ensures !ok ==> |parts| < |manifest| && Stuck(rows, manifest[|parts|], accepts(|parts|))
    {
      if next >= |manifest| {
        return true;
      }
      var end := if next + BATCH < |manifest| then next + BATCH else |manifest|;
      var batch := Range(rows, manifest[next].id, manifest[end - 1].id);
      RangeIs(rows, manifest[next].id, manifest[end - 1].id);
      ok := WriteBatch(batch, end, accepts, rows);
    }

    static lemma NotThere(rows: seq<Chunk>, batch: seq<Chunk>, bi: nat, first: int, last: int, want: Entry)
      requires Ascending(rows) && Ascending(batch) && bi <= |batch|
      requires forall c :: Has(batch, c) <==> Has(rows, c) && first <= c.id <= last
      requires first <= want.id <= last
      requires forall k | 0 <= k < bi :: batch[k].id < want.id
      requires bi < |batch| ==> batch[bi].id >= want.id
      requires bi == |batch| || batch[bi].id != want.id || |batch[bi].gz| != want.size
      ensures forall gz :: !Announced(rows, want, gz)
    {
      forall gz ensures !Announced(rows, want, gz) {
        if Has(rows, Chunk(want.id, gz)) {
          assert Has(batch, Chunk(want.id, gz));
          var k :| 0 <= k < |batch| && batch[k] == Chunk(want.id, gz);
          assert k >= bi;
        }
      }
    }

    /** A whole download: the provider is called until the manifest is done or a call fails. Each call
        finds its own version of the table. */
    method Run(tables: nat -> seq<Chunk>, accepts: nat -> (bool, bool)) returns (ok: bool)
      requires Valid() && next == 0 && !failed && written == [] && parts == []
      requires forall n: nat :: Ascending(tables(n))
      modifies this
      ensures Valid() && (ok <==> !failed)
      ensures |written| <= TotalSize(manifest, separator)
      ensures ok ==> |parts| == |manifest| && written == Members(parts, separator) && |written| == TotalSize(manifest, separator)
      ensures forall i | 0 <= i < |parts| :: exists n: nat :: Announced(tables(n), manifest[i], parts[i])
      ensures !ok ==> |parts| < |manifest| && exists n: nat :: Stuck(tables(n), manifest[|parts|], accepts(|parts|))
    {
      var call := 0;
      ok := true;
      while next < |manifest|
        invariant Valid() && !failed && ok
        invariant forall i | 0 <= i < |parts| :: exists n: nat :: Announced(tables(n), manifest[i], parts[i])
        decreases |manifest| - next
      {
        ghost var before := parts;
        ok := Provide(tables(call), accepts);
        forall i | 0 <= i < |parts| ensures exists n: nat :: Announced(tables(n), manifest[i], parts[i]) {
          if i >= |before| {
            assert Announced(tables(call), manifest[i], parts[i]);
          }
        }
        if !ok {
          return;
        }
        call := call + 1;
      }
      MembersSize(manifest, parts, separator);
      assert manifest[..|parts|] == manifest;
    }
  }

  // ---------------------------------------------------------------------------
  // What the client gets to read
  // ---------------------------------------------------------------------------

  /** A gzip codec: a stream of members decodes to the members' texts one after another (section 2.2 of
      RFC 1952). */
  ghost predicate IsCodec(compress: string -> Bytes, decompress: Bytes -> string) {
    && decompress([]) == ""
    && forall s, rest :: decompress(compress(s) + rest) == s + decompress(rest)
  }

  function Compressed(compress: string -> Bytes, games: seq<string>): seq<Bytes> {
    seq(|games|, i requires 0 <= i < |games| => compress(games[i]))
  }

  lemma {:induction false} MembersDecode(compress: string -> Bytes, decompress: Bytes -> string, games: seq<string>, rest: Bytes)
    requires IsCodec(compress, decompress)
    ensures decompress(Members(Compressed(compress, games), compress("\n")) + rest) == Join(games) + decompress(rest)
    decreases |games|
  {
    var parts := Compressed(compress, games);
    if games == [] {
      assert Members(parts, compress("\n")) + rest == rest;
      assert Join(games) + decompress(rest) == decompress(rest);
    } else {
      var n := |games| - 1;
      var last, sep := games[n], compress("\n");
      assert parts[..n] == Compressed(compress, games[..n]);
      var tail := compress(last) + (sep + rest);
      assert Members(parts, sep) + rest == Members(parts[..n], sep) + tail;
      MembersDecode(compress, decompress, games[..n], tail);
      assert decompress(tail) == last + decompress(sep + rest);
      assert decompress(sep + rest) == "\n" + decompress(rest);
      JoinLast(games[..n], last);
      assert games == games[..n] + [last];
      assert Join(games[..n]) + (last + ("\n" + decompress(rest))) == Join(games[..n]) + last + "\n" + decompress(rest);
    }
  }

  lemma {:induction false} JoinLast(games: seq<string>, last: string)
    ensures Join(games + [last]) == Join(games) + last + "\n"
    decreases |games|
  {
    if games == [] {
      assert ([] + [last])[1..] == [];
    } else {
      assert (games + [last])[1..] == games[1..] + [last];
      JoinLast(games[1..], last);
    }
  }

  /** A finished download of client-made games decodes to their PGN, and splitting that gives back
      exactly those games, in order. */
  lemma DownloadRoundTrip(compress: string -> Bytes, decompress: Bytes -> string, games: seq<string>)
    requires IsCodec(compress, decompress)
    requires forall i | 0 <= i < |games| :: WellFormed(games[i])
    ensures Split(decompress(Members(Compressed(compress, games), compress("\n")))) == games
  {
    MembersDecode(compress, decompress, games, []);
    assert Members(Compressed(compress, games), compress("\n")) + [] == Members(Compressed(compress, games), compress("\n"));
    assert Join(games) + "" == Join(games);
    SplitOfJoin(games);
  }

  /** Every version of the table the calls see still holds the announced games. */
  ghost predicate Steady(tables: nat -> seq<Chunk>, manifest: seq<Entry>, store: seq<Bytes>) {
    && |store| == |manifest|
    && (forall n: nat :: Ascending(tables(n)))
    && forall n: nat, i: nat | i < |manifest| :: Announced(tables(n), manifest[i], store[i])
  }

  /** Whatever games are added meanwhile, a download with a willing sink never gets stuck, and what it
      found is what was announced. */
  lemma SteadyDownload(tables: nat -> seq<Chunk>, manifest: seq<Entry>, store: seq<Bytes>, accepts: nat -> (bool, bool), parts: seq<Bytes>)
    requires Steady(tables, manifest, store) && forall n: nat :: accepts(n).0 && accepts(n).1
    requires |parts| <= |manifest|
    requires forall i | 0 <= i < |parts| :: exists n: nat :: Announced(tables(n), manifest[i], parts[i])
    ensures parts == store[..|parts|]
    ensures |parts| < |manifest| ==> forall n: nat :: !Provider.Stuck(tables(n), manifest[|parts|], accepts(|parts|))
  {
    forall i | 0 <= i < |parts| ensures parts[i] == store[i] {
      var n: nat :| Announced(tables(n), manifest[i], parts[i]);
      assert Announced(tables(n), manifest[i], store[i]);
      OneRow(tables(n), Chunk(manifest[i].id, parts[i]), Chunk(manifest[i].id, store[i]));
    }
    if |parts| < |manifest| {
      forall n: nat ensures !Provider.Stuck(tables(n), manifest[|parts|], accepts(|parts|)) {
        assert Announced(tables(n), manifest[|parts|], store[|parts|]);
      }
    }
  }

  /** A download of client-made games, start to end. */
  method DownloadGames(manifest: seq<Entry>, games: seq<string>, compress: string -> Bytes, ghost decompress: Bytes -> string,
                       tables: nat -> seq<Chunk>, accepts: nat -> (bool, bool)) returns (body: Bytes)
    requires IsCodec(compress, decompress) && EntriesAscend(manifest)
    requires Steady(tables, manifest, Compressed(compress, games)) && forall n: nat :: accepts(n).0 && accepts(n).1
    requires forall i | 0 <= i < |games| :: WellFormed(games[i])
    ensures |body| == TotalSize(manifest, compress("\n"))
    ensures decompress(body) == Join(games) && Split(decompress(body)) == games
  {
    var provider := new Provider(manifest, compress("\n"));
    var ok := provider.Run(tables, accepts);
    body := provider.written;
    ghost var store := Compressed(compress, games);
    SteadyDownload(tables, manifest, store, accepts, provider.parts);
    assert store[..|manifest|] == store;
    DownloadRoundTrip(compress, decompress, games);
    MembersDecode(compress, decompress, games, []);
    assert body + [] == body && Join(games) + "" == Join(games);
  }
}
