/**
 * The transaction directory of file_manager.py. The directory is a map from
 * file name to the record stored in it; each record holds the signed
 * transaction hex and the scheduled time as the text it was saved with.
 */
module FileManager {
  import opened Wrappers
  import opened Timestamps
  import opened Decimal

  /** The JSON object written by `save_transaction`. */
  datatype Record = Record(signedTxHex: string, scheduledTime: string)

  /** One element of the list built by `load_transactions`. */
  datatype Loaded = Loaded(file: string, signedTxHex: string, scheduledTime: Timestamp)

  /** The names the glob `tx*.json` matches: "tx", then anything, then ".json". */
  predicate IsTxFileName(name: string)
  {
    |name| >= 7 && name[..2] == "tx" && name[|name| - 5..] == ".json"
  }

  /** The name `tx<n>.json`. */
  function TxFileName(n: nat): (name: string)
    ensures IsTxFileName(name)
  {
    var name := "tx" + NatToString(n) + ".json";
    assert name[..2] == "tx";
    assert name[|name| - 5..] == ".json";
    name
  }

  /** Numbered names never coincide. */
  lemma TxFileNameInjective(a: nat, b: nat)
    requires TxFileName(a) == TxFileName(b)
    ensures a == b
  {
    var na, nb := TxFileName(a), TxFileName(b);
    assert NatToString(a) == na[2..|na| - 5];
    assert NatToString(b) == nb[2..|nb| - 5];
    NatToStringInjective(a, b);
  }

  /** The files `TX_DIR.glob('tx*.json')` lists. */
  function TxFiles(files: map<string, Record>): set<string>
  {
    set name | name in files && IsTxFileName(name)
  }

  /** The name `save_transaction` writes to: one more than the number of listed files. */
  function NextName(files: map<string, Record>): (name: string)
    ensures IsTxFileName(name)
  {
    TxFileName(|TxFiles(files)| + 1)
  }

  /**
   * After saving two transactions and deleting the first, the next save picks the
   * name of the second one, which is still pending, and overwrites it.
   */
  lemma CollisionAfterDelete(a: Record, b: Record)
    ensures var files := map[TxFileName(1) := a][TxFileName(2) := b] - {TxFileName(1)};
            NextName(files) == TxFileName(2) && TxFileName(2) in files
  {
    var files := map[TxFileName(1) := a][TxFileName(2) := b] - {TxFileName(1)};
    if TxFileName(1) == TxFileName(2) {
      TxFileNameInjective(1, 2);
    }
    assert files.Keys == {TxFileName(2)};
    assert TxFiles(files) == {TxFileName(2)};
  }

  /** Names `tx<j>.json` with `j >= n` that are present: they bound the search for a free one. */
  ghost function TakenFrom(files: map<string, Record>, n: nat): set<string>
  {
    set name | name in files && exists j: nat :: j >= n && name == TxFileName(j)
  }

  lemma TakenShrinks(files: map<string, Record>, n: nat)
    requires TxFileName(n) in files
    ensures TakenFrom(files, n + 1) < TakenFrom(files, n)
  {
    assert TxFileName(n) in TakenFrom(files, n);
    if TxFileName(n) in TakenFrom(files, n + 1) {
      var j: nat :| j >= n + 1 && TxFileName(n) == TxFileName(j);
      TxFileNameInjective(n, j);
    }
  }

  /** The first number from `n` upward whose name is free. */
  function FreeNumberFrom(files: map<string, Record>, n: nat): (k: nat)
    ensures k >= n && TxFileName(k) !in files
    ensures forall j :: n <= j < k ==> TxFileName(j) in files
    decreases TakenFrom(files, n)
  {
    if TxFileName(n) !in files then n
    else
      TakenShrinks(files, n);
      FreeNumberFrom(files, n + 1)
  }

  /**
   * The corrected naming rule: the name `save_transaction` picks when it is free,
   * otherwise the next numbered name that is free. It never names a stored file.
   */
  function FreshName(files: map<string, Record>): (name: string)
    ensures IsTxFileName(name) && name !in files
    ensures NextName(files) !in files ==> name == NextName(files)
  {
    TxFileName(FreeNumberFrom(files, |TxFiles(files)| + 1))
  }

  /** The list `load_transactions` returns for `files`, in the glob's arbitrary order. */
  ghost predicate IsListing(files: map<string, Record>, parse: string -> Option<Timestamp>, list: seq<Loaded>)
  {
    && (forall i :: 0 <= i < |list| ==>
          && list[i].file in TxFiles(files)
          && list[i].signedTxHex == files[list[i].file].signedTxHex
          && parse(files[list[i].file].scheduledTime) == Some(list[i].scheduledTime))
    && (forall i, j :: 0 <= i < j < |list| ==> list[i].file != list[j].file)
    && (forall name :: name in TxFiles(files) ==> exists i :: 0 <= i < |list| && list[i].file == name)
  }

  /** The transaction directory, `TX_DIR`. */
  class TxDir {
    var files: map<string, Record>

    /** The directory as it is found on disk. */
    constructor (existing: map<string, Record>)
      ensures files == existing
    {
      files := existing;
    }

    /** `save_transaction` as written: count the listed files and write `tx<count+1>.json`. */
    method SaveAsWritten(signedTxHex: string, scheduledTime: string) returns (name: string)
      modifies this
      ensures name == NextName(old(files))
      ensures files == old(files)[name := Record(signedTxHex, scheduledTime)]
      ensures name in old(files) ==> |files| == |old(files)|
      ensures name !in old(files) ==> |files| == |old(files)| + 1
    {
      name := TxFileName(|TxFiles(files)| + 1);
      files := files[name := Record(signedTxHex, scheduledTime)];
    }

    /** `save_transaction` with the naming corrected: a save never overwrites a pending file. */
    method Save(signedTxHex: string, scheduledTime: string) returns (name: string)
      modifies this
      ensures name == FreshName(old(files)) && name !in old(files)
      ensures files == old(files)[name := Record(signedTxHex, scheduledTime)]
      ensures |files| == |old(files)| + 1
      ensures TxFiles(files) == TxFiles(old(files)) + {name}
    {
      name := FreshName(files);
      files := files[name := Record(signedTxHex, scheduledTime)];
    }

    /**
     * `load_transactions`: one element per listed file, in an arbitrary order. The
     * first file whose time does not parse makes the whole call raise; its name is
     * the error.
     */
    method Load(parse: string -> Option<Timestamp>) returns (r: Result<seq<Loaded>, string>)
      ensures r.Success? <==> forall name :: name in TxFiles(files) ==> parse(files[name].scheduledTime).Some?
      ensures r.Failure? ==> r.error in TxFiles(files) && parse(files[r.error].scheduledTime).None?
      ensures r.Success? ==> IsListing(files, parse, r.value) && |r.value| == |TxFiles(files)|
    {
      var remaining := TxFiles(files);
      var transactions: seq<Loaded> := [];
      while remaining != {}
        invariant remaining <= TxFiles(files)
        invariant |transactions| + |remaining| == |TxFiles(files)|
        invariant forall i :: 0 <= i < |transactions| ==>
            && transactions[i].file in TxFiles(files) - remaining
            && transactions[i].signedTxHex == files[transactions[i].file].signedTxHex
            && parse(files[transactions[i].file].scheduledTime) == Some(transactions[i].scheduledTime)
        invariant forall i, j :: 0 <= i < j < |transactions| ==> transactions[i].file != transactions[j].file
        invariant forall name :: name in TxFiles(files) - remaining ==>
            exists i :: 0 <= i < |transactions| && transactions[i].file == name
        decreases remaining
      {
        var name :| name in remaining;
        var record := files[name];
        var time := parse(record.scheduledTime);
        if time.None? {
          return Failure(name);
        }
        ghost var before, left := transactions, remaining;
        transactions := transactions + [Loaded(name, record.signedTxHex, time.value)];
        remaining := remaining - {name};
        forall done | done in TxFiles(files) - remaining
          ensures exists i :: 0 <= i < |transactions| && transactions[i].file == done
        {
          if done == name {
            assert transactions[|transactions| - 1].file == done;
          } else {
            assert done in TxFiles(files) - left;
            var i :| 0 <= i < |before| && before[i].file == done;
            assert transactions[i].file == done;
          }
        }
      }
      assert TxFiles(files) - remaining == TxFiles(files);
      forall name | name in TxFiles(files)
        ensures parse(files[name].scheduledTime).Some?
      {
        var i :| 0 <= i < |transactions| && transactions[i].file == name;
      }
      r := Success(transactions);
    }

    /** `delete_transaction`: `unlink` removes the file, and raises when it is absent. */
    method Delete(name: string) returns (ok: bool)
      modifies this
      ensures ok == (name in old(files))
      ensures files == old(files) - {name}
    {
      ok := name in files;
      files := files - {name};
    }
  }
}
