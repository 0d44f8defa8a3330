/** The scheduler's operations as the code performs them, one after another on shared
    fields, each proved against the scheduler as a value. */
module Scheduling {
  import opened Types
  import Spec = SchedulerSteps

  class Scheduler {
    const blockSize: nat
    const transactionsStatus: array<TxStatus>
    const transactionsDependents: array<seq<nat>>
    var executionIdx: nat
    var validationIdx: nat
    var minValidationIdx: nat
    var numValidated: int
    var aborted: bool

    ghost predicate Valid()
      reads this, transactionsStatus, transactionsDependents
    {
      && transactionsStatus.Length == blockSize && transactionsDependents.Length == blockSize
      && Spec.InBlock(transactionsDependents[..], blockSize)
    }

    ghost function View(): Spec.Sched
      reads this, transactionsStatus, transactionsDependents
    {
      Spec.Sched(transactionsStatus[..], transactionsDependents[..], executionIdx, validationIdx, minValidationIdx, numValidated)
    }

    constructor (blockSize: nat)
      ensures Valid() && fresh(transactionsStatus) && fresh(transactionsDependents)
      ensures this.blockSize == blockSize && View() == Spec.Initial(blockSize) && !aborted
      ensures forall t :: 0 <= t < blockSize ==> transactionsStatus[t] == TxStatus(0, ReadyToExecute) && transactionsDependents[t] == []
      ensures executionIdx == 0 && validationIdx == minValidationIdx == blockSize && numValidated == 0
    {
      this.blockSize := blockSize;
      transactionsStatus := new TxStatus[blockSize](i => TxStatus(0, ReadyToExecute));
      transactionsDependents := new seq<nat>[blockSize](i => []);
      executionIdx, validationIdx, minValidationIdx, numValidated, aborted := 0, blockSize, blockSize, 0, false;
      new;
      assert transactionsStatus[..] == seq(blockSize, i => TxStatus(0, ReadyToExecute));
      assert transactionsDependents[..] == seq(blockSize, i => []);
    }

    method Abort()
      modifies this`aborted
      ensures aborted
    {
      aborted := true;
    }

    method TryExecute(t: nat) returns (version: Option<TxVersion>)
      requires Valid()
      modifies transactionsStatus
      ensures Valid() && (View(), version) == Spec.TryExecute(old(View()), t)
    {
      version := None;
      if t < blockSize {
        var tx := transactionsStatus[t];
        if tx.status == ReadyToExecute {
          transactionsStatus[t] := tx.(status := Executing);
          version := Some(TxVersion(t, tx.incarnation));
        }
      }
    }

    /** Advance the validation counter and take what it stood at: a transaction to
        execute if it is ready, to validate if it is finished. */
    method ClaimValidation() returns (task: Option<Task>, retry: bool)
      requires Valid()
      modifies this`validationIdx, transactionsStatus
      ensures Valid() && (View(), task, retry) == Spec.ClaimValidation(old(View()))
    {
      var t := validationIdx;
      validationIdx := validationIdx + 1;
      task, retry := None, false;
      if t < blockSize {
        var tx := transactionsStatus[t];
        if tx.status == ReadyToExecute {
          transactionsStatus[t] := tx.(status := Executing);
          task := Some(Execution(TxVersion(t, tx.incarnation)));
        } else if tx.status == Executed || tx.status == Validated {
          task := Some(Validation(TxVersion(t, tx.incarnation)));
        } else if tx.status == Aborting {
          retry := true;
        }
      }
    }

    /** One turn of the loop of next_task. */
    method Turn() returns (next: Option<Spec.Next>)
      requires Valid()
      modifies this`executionIdx, this`validationIdx, transactionsStatus
      ensures Valid() && (View(), next) == Spec.Turn(old(View()))
    {
      var e, v := executionIdx, validationIdx;
      if e >= blockSize && v >= blockSize {
        return Some(if numValidated + minValidationIdx >= blockSize then Spec.Finished else Spec.Waiting);
      }
      if v < e {
        var task, retry := ClaimValidation();
        if task.Some? {
          return Some(Spec.Found(task.value));
        }
        if retry {
          return None;
        }
      }
      var t := executionIdx;
      executionIdx := executionIdx + 1;
      var version := TryExecute(t);
      next := if version.Some? then Some(Spec.Found(Execution(version.value))) else None;
    }

    /** The next task, or why there is none, as long as nobody aborts the run. */
    method NextTask() returns (next: Spec.Next)
      requires Valid()
      modifies this`executionIdx, this`validationIdx, transactionsStatus
      ensures Valid() && aborted == old(aborted)
      ensures (View(), next) == if aborted then (old(View()), Spec.Finished) else Spec.NextTask(old(View()))
    {
      while !aborted
        invariant Valid() && aborted == old(aborted)
        invariant aborted ==> View() == old(View())
        invariant !aborted ==> Spec.NextTask(View()) == Spec.NextTask(old(View()))
        decreases Spec.Distance(View())
      {
        var turn := Turn();
        if turn.Some? {
          return turn.value;
        }
      }
      return Spec.Finished;
    }

    method AddDependency(t: nat, on: nat) returns (added: bool)
      requires Valid() && on < t < blockSize && transactionsStatus[t].status == Executing
      modifies transactionsStatus, transactionsDependents
      ensures Valid() && (View(), added) == Spec.AddDependency(old(View()), t, on)
    {
      var blocking := transactionsStatus[on];
      if blocking.status == Executed || blocking.status == Validated {
        return false;
      }
      transactionsStatus[t] := transactionsStatus[t].(status := Aborting);
      transactionsDependents[on] := transactionsDependents[on] + [t];
      return true;
    }

    method SetReadyStatus(t: nat)
      requires Valid() && t < blockSize
      modifies transactionsStatus
      ensures Valid() && View() == Spec.SetReady(old(View()), t)
    {
      var tx := transactionsStatus[t];
      transactionsStatus[t] := TxStatus(tx.incarnation + 1, ReadyToExecute);
    }

    /** Drain the dependents of t, making each of them ready. */
    method ResumeDependents(t: nat)
      requires Valid() && t < blockSize
      modifies this`executionIdx, transactionsStatus, transactionsDependents
      ensures Valid() && View() == Spec.ResumeAll(old(View()), t)
    {
      var list := transactionsDependents[t];
      var k := 0;
      while k < |list|
        invariant 0 <= k <= |list| && Valid() && transactionsDependents[t] == list[k..]
        invariant Spec.ResumeAll(View(), t) == Spec.ResumeAll(old(View()), t)
      {
        ghost var before := View();
        var d := list[k];
        assert d == list[k..][0];
        SetReadyStatus(d);
        executionIdx := Min(executionIdx, d);
        transactionsDependents[t] := list[k + 1..];
        assert list[k..][1..] == list[k + 1..];
        assert View() == Spec.LowerExecution(Spec.ResumeFirst(before, t), d);
        k := k + 1;
      }
    }

    method FinishExecution(version: TxVersion, needs: bool, wroteNew: bool) returns (task: Option<Task>)
      requires Valid() && version.tx < blockSize
      requires transactionsStatus[version.tx] == TxStatus(version.incarnation, Executing)
      modifies this, transactionsStatus, transactionsDependents
      ensures Valid() && aborted == old(aborted)
      ensures (View(), task) == Spec.FinishExecution(old(View()), version, needs, wroteNew)
    {
      var t := version.tx;
      ResumeDependents(t);
      ghost var was := transactionsStatus[..];
      if needs {
        minValidationIdx := Min(minValidationIdx, t);
      }
      var m := minValidationIdx;
      if m < blockSize {
        if t < m {
          if wroteNew {
            validationIdx := Min(validationIdx, m);
          }
        } else if t < validationIdx {
          if wroteNew {
            validationIdx := Min(validationIdx, t + 1);
          }
          if needs {
            transactionsStatus[t] := transactionsStatus[t].(status := Executed);
            return Some(Validation(version));
          }
          transactionsStatus[t] := transactionsStatus[t].(status := Validated);
          numValidated := numValidated + 1;
        }
      }
      assert forall x :: 0 <= x < blockSize && x != t ==> transactionsStatus[x] == was[x];
      if needs {
        transactionsStatus[t] := transactionsStatus[t].(status := Executed);
      } else {
        transactionsStatus[t] := transactionsStatus[t].(status := Validated);
        numValidated := numValidated + 1;
      }
      assert transactionsStatus[..] == was[t := was[t].(status := if needs then Executed else Validated)];
      return None;
    }

    method TryValidationAbort(t: nat) returns (aborting: bool)
      requires Valid() && t < blockSize
      modifies this`numValidated, transactionsStatus
      ensures Valid() && (View(), aborting) == Spec.TryValidationAbort(old(View()), t)
    {
      var tx := transactionsStatus[t];
      if tx.status == Validated {
        numValidated := numValidated - 1;
      }
      aborting := tx.status == Executed || tx.status == Validated;
      if aborting {
        transactionsStatus[t] := tx.(status := Aborting);
      }
    }

    method FinishValidation(t: nat, abortedIt: bool) returns (task: Option<Task>)
      requires Valid() && t < blockSize
      modifies this`validationIdx, this`numValidated, transactionsStatus
      ensures Valid() && (View(), task) == Spec.FinishValidation(old(View()), t, abortedIt)
    {
      task := None;
      if abortedIt {
        SetReadyStatus(t);
        validationIdx := Min(validationIdx, t + 1);
        if executionIdx > t {
          var version := TryExecute(t);
          if version.Some? {
            task := Some(Execution(version.value));
          }
        }
      } else {
        var tx := transactionsStatus[t];
        if tx.status == Executed {
          transactionsStatus[t] := tx.(status := Validated);
          numValidated := numValidated + 1;
        }
      }
    }
  }
}
