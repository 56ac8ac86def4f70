/**
 * The store-level commands of main.py: the scheduled-broadcast tick
 * (`check_and_broadcast_transactions`) and the manual broadcast and delete
 * commands. `broadcast_transaction` lives in code that is not part of this model;
 * it is an oracle whose answer says whether the call returned (true) or raised.
 */
module Commands {
  import opened Wrappers
  import opened Timestamps
  import opened FileManager

  /** What happened to one due entry in a tick. */
  datatype Outcome = Broadcasted | BroadcastFailed

  /** One due entry of a tick: the file, the hex that was sent, and what followed. */
  datatype Attempt = Attempt(file: string, signedTxHex: string, outcome: Outcome)

  /** The entries of a listing whose time has come, in listing order. */
  function Due(listed: seq<Loaded>, now: Timestamp): (due: seq<Loaded>)
    ensures |due| <= |listed|
    ensures forall x :: x in due <==> x in listed && AtOrBefore(x.scheduledTime, now)
  {
    if listed == [] then []
    else
      var rest := Due(listed[..|listed| - 1], now);
      var last := listed[|listed| - 1];
      assert listed == listed[..|listed| - 1] + [last];
      if AtOrBefore(last.scheduledTime, now) then rest + [last] else rest
  }

  /** The files whose broadcast returned and which were then deleted. */
  function Removed(attempts: seq<Attempt>): set<string>
  {
    if attempts == [] then {}
    else
      var last := attempts[|attempts| - 1];
      Removed(attempts[..|attempts| - 1]) + (if last.outcome == Broadcasted then {last.file} else {})
  }

  /**
   * Each due entry is broadcast once, in order, the `i`-th broadcast call being
   * answered by `accept(i, hex)`.
   */
  ghost predicate Attempted(due: seq<Loaded>, accept: (nat, string) -> bool, attempts: seq<Attempt>)
  {
    && |attempts| == |due|
    && forall i :: 0 <= i < |due| ==>
         && attempts[i].file == due[i].file
         && attempts[i].signedTxHex == due[i].signedTxHex
         && attempts[i].outcome == (if accept(i, due[i].signedTxHex) then Broadcasted else BroadcastFailed)
  }

  lemma DueStep(listed: seq<Loaded>, now: Timestamp, k: nat)
    requires k < |listed|
    ensures Due(listed[..k + 1], now) ==
            Due(listed[..k], now) + (if AtOrBefore(listed[k].scheduledTime, now) then [listed[k]] else [])
  {
    assert listed[..k + 1][..k] == listed[..k];
  }

  lemma AttemptedStep(due: seq<Loaded>, accept: (nat, string) -> bool, attempts: seq<Attempt>, x: Loaded)
    requires Attempted(due, accept, attempts)
    ensures Attempted(due + [x], accept, attempts +
      [Attempt(x.file, x.signedTxHex, if accept(|attempts|, x.signedTxHex) then Broadcasted else BroadcastFailed)])
  {
  }

  lemma RemoveTwice(files: map<string, Record>, a: set<string>, b: set<string>)
    ensures (files - a) - b == files - (a + b)
  {
  }

  lemma RemovedStep(attempts: seq<Attempt>, a: Attempt)
    ensures Removed(attempts + [a]) == Removed(attempts) + (if a.outcome == Broadcasted then {a.file} else {})
  {
    assert (attempts + [a])[..|attempts|] == attempts;
  }

  /**
   * `check_and_broadcast_transactions`: list the store, then, for every listed
   * entry whose time is at or before `now`, broadcast it and delete it if the
   * broadcast returned. A failure while listing is not caught, and nothing is
   * broadcast.
   */
  method CheckAndBroadcast(dir: TxDir, now: Timestamp, parse: string -> Option<Timestamp>, accept: (nat, string) -> bool)
    returns (listed: Result<seq<Loaded>, string>, attempts: seq<Attempt>)
    modifies dir
    ensures listed.Success? <==>
              forall name :: name in TxFiles(old(dir.files)) ==> parse(old(dir.files)[name].scheduledTime).Some?
    ensures listed.Failure? ==>
              listed.error in TxFiles(old(dir.files)) && parse(old(dir.files)[listed.error].scheduledTime).None?
    ensures listed.Failure? ==> attempts == [] && dir.files == old(dir.files)
    ensures listed.Success? ==> IsListing(old(dir.files), parse, listed.value)
    ensures listed.Success? ==> Attempted(Due(listed.value, now), accept, attempts)
    ensures dir.files == old(dir.files) - Removed(attempts)
  {
    listed := dir.Load(parse);
    attempts := [];
    if listed.Failure? {
      return;
    }
    attempts := BroadcastDue(dir, listed.value, now, accept);
  }

  /**
   * The loop of `check_and_broadcast_transactions` over a listing of distinct
   * files that are all in the store. A failed broadcast is caught and the loop
   * goes on; the delete after a broadcast that returned always finds its file.
   */
  method BroadcastDue(dir: TxDir, transactions: seq<Loaded>, now: Timestamp, accept: (nat, string) -> bool)
    returns (attempts: seq<Attempt>)
    requires forall i, j :: 0 <= i < j < |transactions| ==> transactions[i].file != transactions[j].file
    requires forall m :: 0 <= m < |transactions| ==> transactions[m].file in dir.files
    modifies dir
    ensures Attempted(Due(transactions, now), accept, attempts)
    ensures dir.files == old(dir.files) - Removed(attempts)
  {
    attempts := [];
    for k := 0 to |transactions|
      invariant Attempted(Due(transactions[..k], now), accept, attempts)
      invariant dir.files == old(dir.files) - Removed(attempts)
      invariant forall m :: k <= m < |transactions| ==> transactions[m].file in dir.files
    {
      DueStep(transactions, now, k);
      var tx := transactions[k];
      if AtOrBefore(tx.scheduledTime, now) {
        AttemptedStep(Due(transactions[..k], now), accept, attempts, tx);
        ghost var before := dir.files;
        var attempt := BroadcastOne(dir, tx, accept(|attempts|, tx.signedTxHex));
        RemovedStep(attempts, attempt);
        RemoveTwice(old(dir.files), Removed(attempts), before.Keys - dir.files.Keys);
        attempts := attempts + [attempt];
      }
    }
    assert transactions[..|transactions|] == transactions;
  }

  /**
   * The body of the loop for one due entry: broadcast its hex; if that returned
   * (`accepted`), delete its file.
   */
  method BroadcastOne(dir: TxDir, tx: Loaded, accepted: bool) returns (attempt: Attempt)
    requires tx.file in dir.files
    modifies dir
    ensures attempt == Attempt(tx.file, tx.signedTxHex, if accepted then Broadcasted else BroadcastFailed)
    ensures dir.files == old(dir.files) - (if accepted then {tx.file} else {})
    ensures old(dir.files).Keys - dir.files.Keys == if accepted then {tx.file} else {}
  {
    if accepted {
      var deleted := dir.Delete(tx.file);
      assert deleted;
      attempt := Attempt(tx.file, tx.signedTxHex, Broadcasted);
    } else {
      attempt := Attempt(tx.file, tx.signedTxHex, BroadcastFailed);
    }
  }

  /**
   * `broadcast_transaction_cli`: if a file called `id` exists, broadcast its
   * hex and, if that returned (`accept(hex)`), delete it. The result is the
   * attempt made, or `None` when the file is not found.
   */
  method BroadcastCli(dir: TxDir, id: string, accept: string -> bool) returns (attempt: Option<Attempt>)
    modifies dir
    ensures id !in old(dir.files) ==> attempt == None && dir.files == old(dir.files)
    ensures id in old(dir.files) ==>
      var hex := old(dir.files)[id].signedTxHex;
      && attempt == Some(Attempt(id, hex, if accept(hex) then Broadcasted else BroadcastFailed))
      && dir.files == if accept(hex) then old(dir.files) - {id} else old(dir.files)
  {
    if id !in dir.files {
      return None;
    }
    var hex := dir.files[id].signedTxHex;
    if accept(hex) {
      var deleted := dir.Delete(id);
      assert deleted;
      attempt := Some(Attempt(id, hex, Broadcasted));
    } else {
      attempt := Some(Attempt(id, hex, BroadcastFailed));
    }
  }

  /**
   * `delete_transaction_cli`: delete the file called `id` if it exists;
   * `found` is false when it does not ("Transaction not found").
   */
  method DeleteCli(dir: TxDir, id: string) returns (found: bool)
    modifies dir
    ensures found == (id in old(dir.files))
    ensures dir.files == old(dir.files) - {id}
  {
    found := id in dir.files;
    if found {
      var deleted := dir.Delete(id);
    }
  }

  /** The entries of `listed` name distinct files. */
  predicate DistinctFiles(listed: seq<Loaded>)
  {
    forall i, j :: 0 <= i < j < |listed| ==> listed[i].file != listed[j].file
  }

  /** A file is deleted by a tick exactly when some attempt on it was broadcast. */
  lemma {:induction false} RemovedMeans(attempts: seq<Attempt>, name: string)
    ensures name in Removed(attempts) <==>
      exists k :: 0 <= k < |attempts| && attempts[k].file == name && attempts[k].outcome == Broadcasted
  {
    if attempts != [] {
      var init := attempts[..|attempts| - 1];
      RemovedMeans(init, name);
      if name in Removed(init) {
        var k :| 0 <= k < |init| && init[k].file == name && init[k].outcome == Broadcasted;
        assert attempts[k] == init[k];
      }
      if exists k :: 0 <= k < |attempts| && attempts[k].file == name && attempts[k].outcome == Broadcasted {
        var k :| 0 <= k < |attempts| && attempts[k].file == name && attempts[k].outcome == Broadcasted;
        if k < |init| {
          assert init[k] == attempts[k];
        }
      }
    }
  }

  /** Selecting the due entries keeps files distinct. */
  lemma {:induction false} DueDistinct(listed: seq<Loaded>, now: Timestamp)
    requires DistinctFiles(listed)
    ensures DistinctFiles(Due(listed, now))
  {
    if listed != [] {
      var init := listed[..|listed| - 1];
      var last := listed[|listed| - 1];
      assert DistinctFiles(init);
      DueDistinct(init, now);
      var rest := Due(init, now);
      forall x | x in rest
        ensures x.file != last.file
      {
        var m :| 0 <= m < |init| && init[m] == x;
        assert listed[m] == x;
      }
    }
  }

  /**
   * A tick on a listed store never removes a name whose listed entry is not
   * due, nor a name it did not list: such an entry stays with its record.
   */
  lemma NotDueKept(files: map<string, Record>, parse: string -> Option<Timestamp>, listed: seq<Loaded>,
                   now: Timestamp, accept: (nat, string) -> bool, attempts: seq<Attempt>, name: string)
    requires IsListing(files, parse, listed)
    requires Attempted(Due(listed, now), accept, attempts)
    requires name in files
    requires forall i :: 0 <= i < |listed| && listed[i].file == name ==> !AtOrBefore(listed[i].scheduledTime, now)
    ensures name in files - Removed(attempts) && (files - Removed(attempts))[name] == files[name]
    ensures forall k :: 0 <= k < |attempts| ==> attempts[k].file != name
  {
    RemovedMeans(attempts, name);
  }

  /**
   * After a tick, an attempted file is gone exactly when its broadcast
   * returned; a file whose broadcast failed keeps its record.
   */
  lemma {:induction false} AttemptResults(files: map<string, Record>, parse: string -> Option<Timestamp>, listed: seq<Loaded>,
                         now: Timestamp, accept: (nat, string) -> bool, attempts: seq<Attempt>, k: nat)
    requires IsListing(files, parse, listed)
    requires Attempted(Due(listed, now), accept, attempts)
    requires k < |attempts|
    ensures attempts[k].file in files
    ensures attempts[k].file in files - Removed(attempts) <==> attempts[k].outcome == BroadcastFailed
    ensures attempts[k].outcome == BroadcastFailed ==> (files - Removed(attempts))[attempts[k].file] == files[attempts[k].file]
  {
    var due := Due(listed, now);
    assert due[k] in due;
    DueDistinct(listed, now);
    RemovedMeans(attempts, attempts[k].file);
    forall l | 0 <= l < |attempts| && l != k
      ensures attempts[l].file != attempts[k].file
    {
      if l < k {
        assert due[l].file != due[k].file;
      } else {
        assert due[k].file != due[l].file;
      }
    }
  }

  /** No file is deleted by a tick unless a broadcast of its hex returned. */
  lemma OnlyBroadcastRemoved(due: seq<Loaded>, accept: (nat, string) -> bool, attempts: seq<Attempt>, name: string)
    requires Attempted(due, accept, attempts)
    requires name in Removed(attempts)
    ensures exists k :: 0 <= k < |due| && due[k].file == name && accept(k, due[k].signedTxHex)
  {
    RemovedMeans(attempts, name);
  }

  /**
   * A failed broadcast does not stop the tick: every due listed entry is
   * attempted, and each listed file at most once.
   */
  lemma EveryDueAttemptedOnce(files: map<string, Record>, parse: string -> Option<Timestamp>, listed: seq<Loaded>,
                              now: Timestamp, accept: (nat, string) -> bool, attempts: seq<Attempt>)
    requires IsListing(files, parse, listed)
    requires Attempted(Due(listed, now), accept, attempts)
    ensures forall i :: 0 <= i < |listed| && AtOrBefore(listed[i].scheduledTime, now) ==>
      exists k :: 0 <= k < |attempts| && attempts[k].file == listed[i].file && attempts[k].signedTxHex == listed[i].signedTxHex
    ensures forall k, l :: 0 <= k < l < |attempts| ==> attempts[k].file != attempts[l].file
  {
    var due := Due(listed, now);
    DueDistinct(listed, now);
    forall i | 0 <= i < |listed| && AtOrBefore(listed[i].scheduledTime, now)
      ensures exists k :: 0 <= k < |attempts| && attempts[k].file == listed[i].file && attempts[k].signedTxHex == listed[i].signedTxHex
    {
      assert listed[i] in due;
      var k :| 0 <= k < |due| && due[k] == listed[i];
      assert attempts[k].file == listed[i].file;
    }
  }

  /** At one `now`, each listed entry is either due or strictly in the future, never both. */
  lemma DueOrLater(listed: seq<Loaded>, now: Timestamp, i: nat)
    requires i < |listed|
    ensures listed[i] in Due(listed, now) || Before(now, listed[i].scheduledTime)
    ensures !(listed[i] in Due(listed, now) && Before(now, listed[i].scheduledTime))
  {
    AtOrBeforeTotal(listed[i].scheduledTime, now);
  }

  /** An entry that is due at one tick is due at every later tick that lists it. */
  lemma DueStaysDue(listed: seq<Loaded>, now: Timestamp, later: Timestamp)
    requires AtOrBefore(now, later)
    ensures forall x :: x in Due(listed, now) ==> x in Due(listed, later)
  {
    forall x | x in Due(listed, now)
      ensures x in Due(listed, later)
    {
      AtOrBeforeTransitive(x.scheduledTime, now, later);
    }
  }
}
