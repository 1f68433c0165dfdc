/** From the clients' matches to a downloaded archive: the pgn.gz of a test, for any run of the server fed
    by honest clients. */
module Delivery {
  import opened Schema
  import opened Pgn
  import opened GameText
  import opened Concurrent
  import opened Interleaved
  import opened HonestInterleaved
  import opened Download

  /** A row of the games table with the id the database gave it. */
  datatype Listed = Listed(id: int, key: GameKey)

  /** The valid games of test t, in the order of their ids. */
  ghost predicate ListsValidGames(db: Db, t: int, games: seq<Listed>) {
    && (forall i, j | 0 <= i < j < |games| :: games[i].id < games[j].id && games[i].key != games[j].key)
    && (forall i | 0 <= i < |games| :: games[i].key in db.games)
    && forall key :: (exists i :: 0 <= i < |games| && games[i].key == key)
                     <==> key in db.games && db.games[key].test == t && db.games[key].valid
  }

  function Pgns(db: Db, games: seq<Listed>): seq<string>
    requires forall i | 0 <= i < |games| :: games[i].key in db.games
  {
    seq(|games|, i requires 0 <= i < |games| && games[i].key in db.games => db.games[games[i].key].report.pgn)
  }

  function ManifestOf(db: Db, games: seq<Listed>, compress: string -> Bytes): seq<Entry>
    requires forall i | 0 <= i < |games| :: games[i].key in db.games
  {
    seq(|games|, i requires 0 <= i < |games| && games[i].key in db.games =>
      Entry(games[i].id, |compress(db.games[games[i].key].report.pgn)|))
  }

  /** Every call finds the announced rows, among others. */
  ghost predicate StaysStored(db: Db, games: seq<Listed>, compress: string -> Bytes, tables: nat -> seq<Chunk>)
    requires forall i | 0 <= i < |games| :: games[i].key in db.games
  {
    && (forall n: nat :: Ascending(tables(n)))
    && forall n: nat, i | 0 <= i < |games| :: Has(tables(n), Chunk(games[i].id, compress(db.games[games[i].key].report.pgn)))
  }

  lemma StoredIsSteady(db: Db, t: int, games: seq<Listed>, compress: string -> Bytes, tables: nat -> seq<Chunk>)
    requires ListsValidGames(db, t, games) && StaysStored(db, games, compress, tables)
    ensures EntriesAscend(ManifestOf(db, games, compress))
    ensures Steady(tables, ManifestOf(db, games, compress), Compressed(compress, Pgns(db, games)))
  {
    var manifest, store := ManifestOf(db, games, compress), Compressed(compress, Pgns(db, games));
    forall n: nat, i: nat | i < |manifest| ensures Announced(tables(n), manifest[i], store[i]) {
      assert Has(tables(n), Chunk(games[i].id, compress(db.games[games[i].key].report.pgn)));
    }
  }

  /** The archive has the announced length, and splitting what it decompresses to gives back exactly the
      valid games of the test, in the order of their ids, whatever is stored meanwhile. */
  method DownloadTest(ghost cfg: Config, ghost run: seq<Step>, ghost platform: Platform, db: Db, ghost t: int, games: seq<Listed>,
                      compress: string -> Bytes, ghost decompress: Bytes -> string,
                      tables: nat -> seq<Chunk>, accepts: nat -> (bool, bool)) returns (body: Bytes)
    requires LegalSteps(cfg, START, run) && HonestSteps(run, platform) && db == AfterSteps(cfg, START, run).db
    requires IsCodec(compress, decompress) && ListsValidGames(db, t, games)
    requires StaysStored(db, games, compress, tables) && forall n: nat :: accepts(n).0 && accepts(n).1
    ensures |body| == TotalSize(ManifestOf(db, games, compress), compress("\n"))
    ensures Split(decompress(body)) == Pgns(db, games)
  {
    StoredIsSteady(db, t, games, compress, tables);
    forall i | 0 <= i < |games| ensures WellFormed(Pgns(db, games)[i]) {
      assert games[i].key in db.games && db.games[games[i].key].valid;
      ValidGamesAreWellFormed(cfg, run, platform, games[i].key);
    }
    body := DownloadGames(ManifestOf(db, games, compress), Pgns(db, games), compress, decompress, tables, accepts);
  }
}
