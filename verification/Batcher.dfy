/**
 The output batcher object. Each method is what one thread does under the
 mutex, up to the point where it would wait; ghost fields hold the threads
 that are inside the monitor and what the outside world has seen.
 */
module Batcher {
  import opened Prelude
  import opened BatcherModel
  import opened BatcherLaws
  import BatcherTheorems
  import Utf8

  class OutputBatcher {
    const config: Config
    var pending: Bytes
    var queue: seq<Bytes>
    var timerSet: bool
    var closed: bool
    var discarded: bool
    /** The bytes handed to the sink, after repair. */
    var emitted: Bytes
    ghost var worker: Worker
    ghost var addsWaiting: nat
    ghost var timersWaiting: nat
    ghost var closer: Closer
    ghost var closeWaited: bool
    ghost var accepted: Bytes
    ghost var delivered: seq<Bytes>

    ghost function Abstract(): State
      reads this
    {
      State(pending, queue, timerSet, closed, discarded, worker, addsWaiting, timersWaiting,
            closer, closeWaited, accepted, delivered)
    }

    ghost predicate Valid()
      reads this
    {
      Inv(config, Abstract()) && emitted == BatcherTheorems.Emitted(delivered)
    }

    constructor (config: Config)
      ensures Valid() && Abstract() == Initial && this.config == config
    {
      this.config := config;
      pending, queue, emitted := [], [], [];
      timerSet, closed, discarded := false, false, false;
      worker, addsWaiting, timersWaiting := Idle, 0, 0;
      closer, closeWaited := NotClosing, false;
      accepted, delivered := [], [];
      new;
      InitialInv(config);
    }

    /** takeLocked: cuts the next batch off the front of pending. */
    method Take(max: nat, final: bool) returns (out: Bytes)
      requires max > 0
      modifies this`pending
      ensures Utf8.Batch(out, pending) == Utf8.TakeBatch(old(pending), max, final)
    {
      if |pending| == 0 {
        return [];
      }
      var n := Utf8.PrefixLen(pending, max);
      if n == 0 {
        if !final {
          assert pending[..0] == [] && pending[0..] == pending;
          return [];
        }
        n := if max > |pending| then |pending| else max;
      }
      if !final {
        var held := Utf8.TrailingPartial(pending[..n]);
        n := n - held;
        if n == 0 {
          assert pending[..0] == [] && pending[0..] == pending;
          return [];
        }
      }
      out := pending[..n];
      pending := pending[n..];
    }

    method EnqueueBatch(out: Bytes)
      modifies this`queue
      ensures queue == old(queue) + [out]
    {
      queue := queue + [out];
    }

    method ArmTimer()
      modifies this`timerSet
      ensures Abstract() == Arm(old(Abstract()))
    {
      if timerSet || closed || discarded {
        return;
      }
      timerSet := true;
    }

    /** flushReadyLocked; `blocked` means it stopped to wait for a queue slot. */
    method FlushReady() returns (blocked: bool)
      requires !closed && !discarded
      modifies this`pending, this`queue
      ensures Flush(config, old(Abstract())) == if blocked then Blocked(Abstract()) else Through(Abstract())
    {
      hide Utf8.TakeBatch;
      while |pending| >= config.Threshold(|queue|)
        invariant Flush(config, Abstract()) == Flush(config, old(Abstract()))
        decreases |pending|
      {
        if |queue| >= config.maxBatches {
          return true;
        }
        var out := Take(config.Cap(), false);
        if |out| == 0 {
          return false;
        }
        EnqueueBatch(out);
      }
      return false;
    }

    /** The tail of Add once it has appended, or resumed and taken. */
    method FinishAdd()
      requires !closed && !discarded
      modifies this`pending, this`queue, this`timerSet, this`addsWaiting
      ensures Abstract() == AfterFlush(Flush(config, old(Abstract())))
    {
      var blocked := FlushReady();
      if blocked {
        addsWaiting := addsWaiting + 1;
        return;
      }
      if |pending| > 0 {
        ArmTimer();
      }
    }

    method Add(p: Bytes)
      requires Valid()
      modifies this`pending, this`queue, this`timerSet, this`addsWaiting, this`accepted
      ensures Valid() && Abstract() == Step(config, old(Abstract()), Event.Add(p))
      ensures accepted == if old(closed) then old(accepted) else old(accepted) + p
      ensures !closed && addsWaiting == old(addsWaiting) && p != [] ==>
                |pending| < config.Threshold(|queue|) || Stuck(config, pending)
      ensures addsWaiting > old(addsWaiting) ==> |queue| >= config.maxBatches
    {
      hide Inv, Flush, Utf8.TakeBatch, Stuck;
      DiscardedIsClosed(config, Abstract());
      if Open(Abstract()) && p != [] {
        AddTakes(config, Abstract(), p);
      }
      StepKeepsInv(config, Abstract(), Event.Add(p));
      if closed || discarded || |p| == 0 {
        return;
      }
      pending := pending + p;
      accepted := accepted + p;
      FinishAdd();
    }

    /** A producer that was waiting for a slot wakes up. */
    method ResumeAdd()
      requires Valid() && addsWaiting > 0
      modifies this`pending, this`queue, this`timerSet, this`addsWaiting
      ensures Valid() && Abstract() == Step(config, old(Abstract()), AddResumes)
      ensures !closed && addsWaiting < old(addsWaiting) ==>
                |pending| < config.Threshold(|queue|) || Stuck(config, pending)
      ensures !closed && addsWaiting >= old(addsWaiting) ==> |queue| >= config.maxBatches
    {
      hide Inv, Flush, Utf8.TakeBatch, Stuck;
      DiscardedIsClosed(config, Abstract());
      if Open(Abstract()) {
        AddResumeTakes(config, Abstract());
      }
      StepKeepsInv(config, Abstract(), AddResumes);
      if closed || discarded {
        addsWaiting := addsWaiting - 1;
        return;
      }
      if |queue| >= config.maxBatches {
        return;
      }
      addsWaiting := addsWaiting - 1;
      var out := Take(config.Cap(), false);
      if |out| == 0 {
        if |pending| > 0 {
          ArmTimer();
        }
        return;
      }
      EnqueueBatch(out);
      FinishAdd();
    }

    /** The loop of onTimer. */
    method RunTimer()
      requires !closed && !discarded
      modifies this`pending, this`queue, this`timerSet, this`timersWaiting
      ensures Abstract() == AfterTimer(TimerLoop(config, old(Abstract())))
    {
      hide Utf8.TakeBatch;
      while true
        invariant TimerLoop(config, Abstract()) == TimerLoop(config, old(Abstract()))
        decreases |pending|
      {
        if |queue| >= config.maxBatches {
          timersWaiting := timersWaiting + 1;
          return;
        }
        var out := Take(config.Cap(), false);
        if |out| > 0 {
          EnqueueBatch(out);
        }
        if |pending| == 0 || |out| == 0 {
          break;
        }
        if |pending| < config.Cap() && |pending| < config.Threshold(|queue|) {
          break;
        }
      }
      if |pending| > 0 {
        ArmTimer();
      }
    }

    method OnTimer()
      requires Valid()
      modifies this`pending, this`queue, this`timerSet, this`timersWaiting
      ensures Valid() && Abstract() == Step(config, old(Abstract()), TimerFires)
      ensures !closed ==> Takes(config, old(Abstract()), Abstract())
      ensures !closed ==> if timersWaiting == old(timersWaiting) then TimerRests(config, old(Abstract()), Abstract())
                          else |queue| >= config.maxBatches
    {
      hide Inv, TimerLoop, Takes, TimerRests;
      DiscardedIsClosed(config, Abstract());
      if Open(Abstract()) {
        TimerTakes(config, Abstract(), TimerFires);
      }
      StepKeepsInv(config, Abstract(), TimerFires);
      timerSet := false;
      if closed || discarded {
        return;
      }
      RunTimer();
    }

    /** A timer callback that was waiting for a slot wakes up. */
    method ResumeTimer()
      requires Valid() && timersWaiting > 0
      modifies this`pending, this`queue, this`timerSet, this`timersWaiting
      ensures Valid() && Abstract() == Step(config, old(Abstract()), TimerResumes)
      ensures !closed ==> Takes(config, old(Abstract()), Abstract())
      ensures !closed ==> if timersWaiting < old(timersWaiting) then TimerRests(config, old(Abstract()), Abstract())
                          else |queue| >= config.maxBatches
    {
      hide Inv, TimerLoop, Takes, TimerRests;
      DiscardedIsClosed(config, Abstract());
      if Open(Abstract()) {
        TimerTakes(config, Abstract(), TimerResumes);
      }
      StepKeepsInv(config, Abstract(), TimerResumes);
      timersWaiting := timersWaiting - 1;
      if closed || discarded {
        return;
      }
      RunTimer();
    }

    /** The loop of Close, from its head. */
    method FlushForClose()
      modifies this`pending, this`queue, this`closer, this`closeWaited
      ensures Abstract() == AfterClose(CloseLoop(config, old(Abstract())))
    {
      hide Utf8.TakeBatch;
      while |pending| > 0 && !discarded
        invariant CloseLoop(config, Abstract()) == CloseLoop(config, old(Abstract()))
        decreases |pending|
      {
        if |queue| >= config.maxBatches {
          closer, closeWaited := Waiting, true;
          return;
        }
        var out := Take(config.Cap(), true);
        EnqueueBatch(out);
      }
      closer := Finished;
    }

    method Close()
      requires Valid()
      modifies this`pending, this`queue, this`timerSet, this`closed, this`closer, this`closeWaited
      ensures Valid() && Abstract() == Step(config, old(Abstract()), Event.Close)
      ensures closed && (old(closed) ==> Abstract() == old(Abstract()))
      ensures !old(closed) ==> !timerSet && if closer == Waiting then |queue| >= config.maxBatches else pending == []
    {
      hide Inv, CloseLoop;
      DiscardedIsClosed(config, Abstract());
      if !closed {
        CloseFlushes(config, Abstract(), Event.Close);
      }
      StepKeepsInv(config, Abstract(), Event.Close);
      if closed {
        return;
      }
      closed := true;
      timerSet := false;
      FlushForClose();
    }

    /** Close, having waited for a slot, wakes up. */
    method ResumeClose()
      requires Valid() && closer == Waiting
      modifies this`pending, this`queue, this`closer, this`closeWaited
      ensures Valid() && Abstract() == Step(config, old(Abstract()), CloseResumes)
      ensures if closer == Waiting then |queue| >= config.maxBatches else pending == []
    {
      hide Inv, CloseLoop;
      DiscardedIsClosed(config, Abstract());
      CloseFlushes(config, Abstract(), CloseResumes);
      StepKeepsInv(config, Abstract(), CloseResumes);
      FlushForClose();
    }

    method Discard()
      requires Valid()
      modifies this`pending, this`queue, this`timerSet, this`closed, this`discarded
      ensures Valid() && Abstract() == Step(config, old(Abstract()), Event.Discard)
      ensures closed && discarded && pending == [] && queue == [] && !timerSet
    {
      hide Inv;
      StepKeepsInv(config, Abstract(), Event.Discard);
      discarded := true;
      closed := true;
      timerSet := false;
      pending := [];
      queue := [];
    }

    /** The worker's turn under the mutex: the next batch, or the decision to leave; None when it has to wait. */
    method NextBatch() returns (next: Option<Bytes>)
      requires Valid() && worker == Idle
      modifies this`queue, this`worker
      ensures Valid()
      ensures Abstract() == Step(config, Step(config, old(Abstract()), WorkerTakes), WorkerExits)
      ensures old(queue) != [] && !old(discarded) ==>
                next == Some(old(queue)[0]) && worker == Delivering(old(queue)[0]) && queue == old(queue)[1..]
      ensures old(queue) == [] || old(discarded) ==> next == None
      ensures worker == Exited <==> old(discarded) || (old(queue) == [] && old(closed))
    {
      hide Inv;
      StepKeepsInv(config, Abstract(), WorkerTakes);
      StepKeepsInv(config, Step(config, Abstract(), WorkerTakes), WorkerExits);
      if |queue| == 0 && !closed && !discarded {
        return None;
      }
      if discarded {
        queue := [];
        worker := Exited;
        return None;
      }
      if |queue| == 0 && closed {
        worker := Exited;
        return None;
      }
      var chunk := queue[0];
      queue := queue[1..];
      worker := Delivering(chunk);
      next := Some(chunk);
    }

    /** Outside the mutex: the sink gets the repaired batch. */
    method Emit(chunk: Bytes)
      requires Valid() && worker == Delivering(chunk)
      modifies this`worker, this`delivered, this`emitted
      ensures Valid() && Abstract() == Step(config, old(Abstract()), WorkerDelivers)
      ensures delivered == old(delivered) + [chunk] && worker == Idle
      ensures emitted == old(emitted) + Utf8.Repaired(chunk, false)
    {
      hide Inv, BatcherTheorems.Emitted, Utf8.Repaired, Utf8.Valid;
      StepKeepsInv(config, Abstract(), WorkerDelivers);
      var text := Utf8.ToValidUtf8(chunk);
      BatcherTheorems.EmittedAppend(delivered, chunk);
      emitted := emitted + text;
      worker := Idle;
      delivered := delivered + [chunk];
    }
  }
}
