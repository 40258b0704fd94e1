// The lock every operation on a state file runs under (`StatePathLock` in src/state.rs): the keys of one
// file are taken together or not at all, and all of them include one key for the whole process.

module PathLock {
  import opened Wrappers

  datatype LockKey = Process | Path(path: string) | FileId(dev: nat, ino: nat)

  /** The keys of a file: its path, and its identity if it exists. */
  function LockKeys(path: string, file: Option<(nat, nat)>): set<LockKey> {
    {Process, Path(path)} + if file.Some? then {FileId(file.value.0, file.value.1)} else {}
  }

  class StatePathLocks {
    var locked: set<LockKey>
    ghost var holders: seq<set<LockKey>>

    ghost predicate Valid()
      reads this
    {
      && (forall i, j :: 0 <= i < j < |holders| ==> holders[i] !! holders[j])
      && (forall key :: key in locked <==> exists i :: 0 <= i < |holders| && key in holders[i])
    }

    constructor ()
      ensures Valid() && holders == []
    {
      locked, holders := {}, [];
    }

    /** One round of the acquire loop; the caller sleeps and tries again if a key is taken. */
    method TryAcquire(keys: set<LockKey>) returns (ok: bool)
      requires Valid()
      modifies this
      ensures Valid()
      ensures ok <==> keys !! old(locked)
      ensures holders == if ok then old(holders) + [keys] else old(holders)
      ensures ok ==> locked == old(locked) + keys
      ensures !ok ==> locked == old(locked)
    {
      if exists key :: key in keys && key in locked {
        return false;
      }
      forall i | 0 <= i < |holders| ensures holders[i] !! keys {
        forall key | key in holders[i] ensures key !in keys { assert key in locked; }
      }
      locked := locked + keys;
      ghost var before := holders;
      holders := holders + [keys];
      forall key ensures key in locked <==> exists i :: 0 <= i < |holders| && key in holders[i] {
        if key in keys {
          assert key in holders[|holders| - 1];
        } else if key in locked {
          var i :| 0 <= i < |before| && key in before[i];
          assert key in holders[i];
        }
      }
      return true;
    }

    /** One holder gives its keys back. */
    method Drop(n: nat, keys: set<LockKey>)
      requires Valid() && n < |holders| && holders[n] == keys
      modifies this
      ensures Valid() && holders == old(holders[..n] + holders[n + 1..])
      ensures locked == old(locked) - keys
    {
      ghost var before, was := holders, locked;
      locked := locked - keys;
      holders := holders[..n] + holders[n + 1..];
      forall key ensures key in locked <==> exists i :: 0 <= i < |holders| && key in holders[i] {
        if key in locked {
          var i :| 0 <= i < |before| && key in before[i];
          assert key in holders[if i < n then i else i - 1];
        }
        if i :| 0 <= i < |holders| && key in holders[i] {
          var j := if i < n then i else i + 1;
          assert holders[i] == before[j] && key in before[j];
          assert before[j] !! before[n];
        }
      }
    }

    lemma NoSharedKey(i: nat, j: nat, key: LockKey)
      requires Valid() && i < j < |holders|
      ensures key !in holders[i] || key !in holders[j]
    {
    }

    /** Since every file's keys include the one for the process, at most one operation of the process
        holds a lock, whichever files the operations are for. */
    lemma OneHolder()
      requires Valid()
      requires forall i :: 0 <= i < |holders| ==> exists path, file :: holders[i] == LockKeys(path, file)
      ensures |holders| <= 1
      ensures |holders| == 1 <==> Process in locked
    {
      if |holders| == 1 {
        assert Process in holders[0];
      } else if |holders| > 1 {
        NoSharedKey(0, 1, Process);
      }
    }
  }
}
