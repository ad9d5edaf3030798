/**
 Message buffers: the ring, kept in place in an array, the tasks that wait to send and the tasks that
 wait to receive.
 */
module MessageBuffer {
  import opened Common
  import opened MessageRing
  import opened WaitQueue

  datatype Sent = Delivered(tid: nat) | Stored | Queued | NoRoom | TooLong | MayNotWait

  datatype Received = Message(m: Message) | Waiting | Nothing | Barred

  function Requests(q: seq<Waiter<Message>>): seq<Message> {
    seq(|q|, i requires 0 <= i < |q| => q[i].req)
  }

  class Buffer {
    const bufsz: nat
    const maxmsz: nat
    const tpri: bool
    const buffer: array<byte>
    var frbufsz: int
    var head: nat
    var tail: nat
    var sendQueue: seq<Waiter<Message>>
    var recvQueue: seq<nat>
    ghost var msgs: seq<Message>
    ghost var accepted: seq<Message> // every message taken on and not withdrawn, in order of delivery
    ghost var delivered: seq<Message>

    /** The ring holds msgs, oldest first, from head up to tail. */
    ghost predicate RingOk()
      reads this, buffer
    {
      buffer.Length == bufsz && RingState(buffer[..], head, tail, frbufsz, msgs)
    }

    ghost predicate Fits(m: Message)
      reads this
    {
      RecordSz(m) <= frbufsz
    }

    ghost predicate Senders()
      reads this
    {
      QueueOk(sendQueue, tpri) && forall w :: w in sendQueue ==> 0 < |w.req| <= maxmsz
    }

    /** A task waits to receive only when there is nothing, and to send only when it must. */
    ghost predicate Valid()
      reads this, buffer
    {
      && RingOk() && Senders() && maxmsz <= INT_MAX
      && (forall i, j :: 0 <= i < j < |recvQueue| ==> recvQueue[i] != recvQueue[j])
      && (recvQueue != [] ==> msgs == [] && sendQueue == [])
      && (sendQueue != [] ==> !Fits(sendQueue[0].req))
      && accepted == delivered + Pending()
    }

    /** All messages accepted and not yet received: those in the ring, then those of the waiting tasks. */
    ghost function Pending(): seq<Message>
      reads this
    {
      msgs + Requests(sendQueue)
    }

    /** _tk_cre_mbf. */
    constructor (size: nat, max: nat, byPriority: bool)
      requires 0 < max <= INT_MAX
      ensures Valid() && Pending() == [] && recvQueue == [] && delivered == [] && fresh(buffer)
      ensures bufsz == RoundSz(size) && maxmsz == max && tpri == byPriority
    {
      hide RingState, RoundSz;
      bufsz, maxmsz, tpri := RoundSz(size), max, byPriority;
      buffer := new byte[RoundSz(size)];
      frbufsz, head, tail := RoundSz(size), 0, 0;
      sendQueue, recvQueue, msgs := [], [], [];
      accepted, delivered := [], [];
      new;
      EmptyState(buffer[..]);
    }

    // -------------------------------------------------------------- the ring

    /** MEMCPY into the buffer. */
    method CopyIn(at: nat, s: seq<byte>)
      requires at + |s| <= buffer.Length
      modifies buffer
      ensures buffer[..] == Overwrite(old(buffer[..]), at, s)
    {
      forall i | 0 <= i < |s| {
        buffer[at + i] := s[i];
      }
    }

    /** mbf_free. */
    predicate MbfFree(msgsz: nat)
      reads this
    {
      HEADERSZ + msgsz <= frbufsz
    }

    /** mbf_empty. */
    predicate MbfEmpty()
      reads this
    {
      frbufsz == bufsz
    }

    /** msg_to_mbf: store one message behind the others. */
    method MsgToMbf(m: Message)
      requires RingOk() && Fits(m) && |m| <= INT_MAX
      modifies this`frbufsz, this`tail, this`msgs, buffer
      ensures RingOk() && msgs == old(msgs) + [m] && frbufsz == old(frbufsz) - RecordSz(m)
    {
      hide RingState, Written, Overwrite, Encode, RoundSz, Cir;
      ghost var b := buffer[..];
      StoreRoom(b, head, tail, frbufsz, msgs, m);
      var t, msgsz := tail, |m|;
      frbufsz := frbufsz - (HEADERSZ + RoundSz(msgsz));
      CopyIn(t, Encode(msgsz));
      WrittenFirst(b, tail, Encode(|m|));
      t := t + HEADERSZ;
      if t >= bufsz {
        t := 0;
      }
      var remsz, rest := bufsz - t, m;
      ghost var rec, b1 := Encode(|m|), buffer[..];
      if remsz < msgsz {
        CopyIn(t, m[..remsz]);
        WrittenMore(b, b1, tail, rec, m[..remsz]);
        rec, b1 := rec + m[..remsz], buffer[..];
        rest := m[remsz..];
        msgsz := msgsz - remsz;
        t := 0;
      }
      CopyIn(t, rest);
      WrittenMore(b, b1, tail, rec, rest);
      assert rec + rest == Encode(|m|) + m;
      t := t + RoundSz(msgsz);
      if t >= bufsz {
        t := 0;
      }
      StoreState(b, buffer[..], head, tail, old(frbufsz), msgs, m);
      tail := t;
      msgs := msgs + [m];
    }

    /** The len bytes from position k on, around the end if need be, and the position behind them. */
    method CopyOut(k: nat, len: nat) returns (m: seq<byte>, h: nat)
      requires buffer.Length == bufsz && k < bufsz && len <= bufsz
      ensures m == Piece(buffer[..], k, len) && h == PastBytes(k, len, bufsz)
    {
      hide RoundSz;
      var msgsz, remsz := len, bufsz - k;
      h := k;
      m := [];
      if remsz < msgsz {
        m := buffer[h..h + remsz];
        assert m == buffer[..][k..];
        msgsz := msgsz - remsz;
        h := 0;
      }
      assert buffer[h..h + msgsz] == buffer[..][h..h + msgsz];
      m := m + buffer[h..h + msgsz];
      h := h + RoundSz(msgsz);
      if h >= bufsz {
        h := 0;
      }
    }

    /** mbf_to_msg: take the oldest message out. */
    method MbfToMsg() returns (m: Message)
      requires RingOk() && msgs != []
      modifies this`frbufsz, this`head, this`msgs
      ensures RingOk() && m == old(msgs)[0] && msgs == old(msgs)[1..]
    {
      hide RingState, Encode, Decode, RoundSz, Piece, PastBytes;
      FetchState(buffer[..], head, tail, frbufsz, msgs);
      DecodeEncode(|msgs[0]|);
      assert buffer[head..head + HEADERSZ] == buffer[..][head..head + HEADERSZ];
      var h := head;
      var msgsz := Decode(buffer[h..h + HEADERSZ]);
      frbufsz := frbufsz + (HEADERSZ + RoundSz(msgsz));
      h := h + HEADERSZ;
      if h >= bufsz {
        h := 0;
      }
      m, h := CopyOut(h, msgsz);
      head := h;
      msgs := msgs[1..];
    }

    // -------------------------------------------------------------- waiting tasks

    /** mbf_wakeup: stores messages of waiting senders, from the head of their queue, as long as they fit. */
    method MbfWakeup() returns (ghost n: nat)
      requires RingOk() && Senders() && maxmsz <= INT_MAX
      modifies this`frbufsz, this`tail, this`msgs, this`sendQueue, buffer
      ensures RingOk() && Senders() && (sendQueue != [] ==> !Fits(sendQueue[0].req))
      ensures Pending() == old(Pending())
      ensures n <= |old(sendQueue)| && sendQueue == old(sendQueue)[n..]
              && msgs == old(msgs) + Requests(old(sendQueue))[..n]
    {
      hide RingState, QueueOk, RoundSz, RecordSz;
      n := 0;
      while sendQueue != []
        invariant RingOk() && Senders() && n <= |old(sendQueue)|
        invariant sendQueue == old(sendQueue)[n..] && msgs == old(msgs) + Requests(old(sendQueue))[..n]
        decreases |sendQueue|
      {
        var top := sendQueue[0];
        StateFacts(buffer[..], head, tail, frbufsz, msgs);
        UnroundedSuffices(frbufsz, top.req);
        if !MbfFree(|top.req|) {
          break;
        }
        MsgToMbf(top.req);
        DropOk(sendQueue, 1, tpri);
        sendQueue := sendQueue[1..];
        n := n + 1;
      }
      assert Requests(old(sendQueue)) == Requests(old(sendQueue))[..n] + Requests(sendQueue);
    }

    /** A message that fits is stored while nobody waits to receive. */
    method Store(m: Message)
      requires Valid() && recvQueue == [] && Fits(m) && 0 < |m| <= maxmsz
      modifies this`frbufsz, this`tail, this`msgs, this`accepted, buffer
      ensures Valid() && msgs == old(msgs) + [m]
    {
      hide RingState, QueueOk, RoundSz, RecordSz;
      MsgToMbf(m);
      accepted := delivered + Pending();
      FitsLess(sendQueue, frbufsz, old(frbufsz));
    }

    /** A task that may not store its message waits to send it. */
    method Enqueue(tid: nat, pri: int, m: Message)
      requires Valid() && recvQueue == [] && 0 < |m| <= maxmsz && Absent(sendQueue, tid)
      requires !Fits(m) || !OnTop(sendQueue, pri, tpri)
      modifies this`sendQueue, this`accepted
      ensures Valid() && sendQueue == Joined(old(sendQueue), Waiter(tid, pri, m), tpri)
      ensures !tpri ==> accepted == old(accepted) + [m]
    {
      hide RingState, QueueOk, RoundSz, Absent, RecordSz;
      JoinedOk(sendQueue, Waiter(tid, pri, m), tpri);
      sendQueue := Join(sendQueue, Waiter(tid, pri, m), tpri);
      JoinedRequests(old(sendQueue), Waiter(tid, pri, m));
      accepted := delivered + Pending();
    }

    /**
     _tk_snd_mbf. A call outside task context (indp) never waits, and it passes the waiting senders;
     a task stores its message at once only if no waiting sender is at least as urgent. diswai says that
     the task may not wait to send to this buffer.
     */
    method Snd(tid: nat, pri: int, m: Message, poll: bool, indp: bool, diswai: bool) returns (s: Sent)
      requires Valid() && |m| > 0 && Absent(sendQueue, tid) && (indp ==> poll)
      modifies this`frbufsz, this`tail, this`msgs, this`sendQueue, this`recvQueue, this`accepted, this`delivered, buffer
      ensures Valid()
      ensures s == TooLong <==> |m| > maxmsz
      ensures s == MayNotWait <==> |m| <= maxmsz && !indp && diswai
      ensures s.Delivered? <==> |m| <= maxmsz && (indp || !diswai) && old(recvQueue) != []
      ensures s.Delivered? ==>
                && s.tid == old(recvQueue)[0] && recvQueue == old(recvQueue)[1..]
                && delivered == old(delivered) + [m] && Pending() == old(Pending()) == []
      // stored exactly when it fits and no waiting sender is at least as urgent as the calling task
      ensures s == Stored <==>
                |m| <= maxmsz && (indp || !diswai) && old(recvQueue) == [] && old(Fits(m))
                && (indp || old(sendQueue) == [] || (tpri && pri < old(sendQueue)[0].pri))
      ensures s == Stored ==> msgs == old(msgs) + [m] && sendQueue == old(sendQueue)
      ensures s == Queued ==>
                !poll && msgs == old(msgs) && sendQueue == Joined(old(sendQueue), Waiter(tid, pri, m), tpri)
      ensures s == NoRoom ==> poll && sendQueue == old(sendQueue)
      ensures s in {NoRoom, TooLong, MayNotWait} ==> accepted == old(accepted) && Pending() == old(Pending())
      ensures !s.Delivered? ==> delivered == old(delivered) && recvQueue == old(recvQueue)
      // first come, first served: what a task sends to a TA_TFIFO buffer goes behind all that is accepted
      ensures !tpri && !indp && (s.Delivered? || s == Stored || s == Queued) ==> accepted == old(accepted) + [m]
    {
      hide RingState, QueueOk, RoundSz, Absent, RecordSz;
      if |m| > maxmsz {
        return TooLong;
      }
      if !indp && diswai {
        return MayNotWait;
      }
      StateFacts(buffer[..], head, tail, frbufsz, msgs);
      UnroundedSuffices(frbufsz, m);
      if recvQueue != [] {
        s := Delivered(recvQueue[0]);
        recvQueue := recvQueue[1..];
        delivered := delivered + [m];
        accepted := accepted + [m];
      } else if (indp || OnTop(sendQueue, pri, tpri)) && MbfFree(|m|) {
        Store(m);
        s := Stored;
      } else if poll {
        s := NoRoom;
      } else {
        Enqueue(tid, pri, m);
        s := Queued;
      }
    }

    /** Receiving when the ring is not empty: the waiting senders use the room that is made. */
    method FromRing() returns (m: Message, ghost served: nat)
      requires RingOk() && Senders() && maxmsz <= INT_MAX && msgs != []
      modifies this`frbufsz, this`head, this`tail, this`msgs, this`sendQueue, buffer
      ensures RingOk() && Senders() && (sendQueue != [] ==> !Fits(sendQueue[0].req))
      ensures [m] + Pending() == old(Pending())
      ensures served <= |old(sendQueue)| && sendQueue == old(sendQueue)[served..]
    {
      hide RingState, QueueOk, RoundSz, RecordSz;
      m := MbfToMsg();
      assert [m] + Pending() == old(Pending());
      served := MbfWakeup();
    }

    /** Receiving from the first waiting sender when the ring is empty. */
    method FromSender() returns (m: Message, ghost served: nat)
      requires RingOk() && Senders() && maxmsz <= INT_MAX && msgs == [] && sendQueue != []
      modifies this`frbufsz, this`tail, this`msgs, this`sendQueue, buffer
      ensures RingOk() && Senders() && (sendQueue != [] ==> !Fits(sendQueue[0].req))
      ensures [m] + Pending() == old(Pending())
      ensures served <= |old(sendQueue)| && sendQueue == old(sendQueue)[served..]
    {
      hide RingState, QueueOk, RoundSz, RecordSz;
      m := sendQueue[0].req;
      DropOk(sendQueue, 1, tpri);
      sendQueue := sendQueue[1..];
      assert [m] + Pending() == old(Pending());
      ghost var n := MbfWakeup();
      served := n + 1;
    }

    /** The oldest pending message, where there is one. */
    method Take() returns (m: Message, ghost served: nat)
      requires Valid() && (msgs != [] || sendQueue != [])
      modifies this`frbufsz, this`head, this`tail, this`msgs, this`sendQueue, this`delivered, buffer
      ensures Valid() && [m] + Pending() == old(Pending()) && delivered == old(delivered) + [m]
      ensures served <= |old(sendQueue)| && sendQueue == old(sendQueue)[served..]
    {
      hide RingState, QueueOk, RoundSz, RecordSz;
      StateFacts(buffer[..], head, tail, frbufsz, msgs);
      if !MbfEmpty() {
        m, served := FromRing();
      } else {
        m, served := FromSender();
      }
      delivered := delivered + [m];
    }

    /** _tk_rcv_mbf: the oldest pending message, from the ring or straight from a waiting sender. */
    method Rcv(tid: nat, poll: bool, diswai: bool) returns (r: Received, ghost served: nat)
      requires Valid() && tid !in recvQueue
      modifies this`frbufsz, this`head, this`tail, this`msgs, this`sendQueue, this`recvQueue, this`delivered, buffer
      ensures Valid() && accepted == old(accepted)
      ensures r == Barred <==> diswai
      ensures r == Barred ==> Pending() == old(Pending()) && recvQueue == old(recvQueue) && delivered == old(delivered)
      ensures r != Barred ==> (r.Message? <==> old(Pending()) != [])
      ensures r.Message? ==>
                && r.m == old(Pending())[0] && Pending() == old(Pending())[1..]
                && delivered == old(delivered) + [r.m] && recvQueue == old(recvQueue)
      ensures r == Waiting ==>
                !poll && recvQueue == old(recvQueue) + [tid] && Pending() == []
                && delivered == old(delivered)
      ensures r == Nothing ==> poll && recvQueue == old(recvQueue) && Pending() == [] && delivered == old(delivered)
      // waiting senders are served from the head of their queue, and the others go on waiting in order
      ensures served <= |old(sendQueue)| && sendQueue == old(sendQueue)[served..]
    {
      hide RingState, QueueOk, RoundSz, RecordSz;
      served := 0;
      assert sendQueue == sendQueue[0..];
      if diswai {
        return Barred, 0;
      }
      StateFacts(buffer[..], head, tail, frbufsz, msgs);
      if !MbfEmpty() || sendQueue != [] {
        var m;
        m, served := Take();
        r := Received.Message(m);
      } else if poll {
        r := Nothing;
      } else {
        recvQueue := recvQueue + [tid];
        r := Waiting;
      }
    }

    /** The i-th waiting sender is out of the queue. */
    method Withdraw(i: nat)
      requires i < |sendQueue|
      modifies this`sendQueue, this`accepted
      ensures sendQueue == Left(old(sendQueue), i) && accepted == delivered + Pending()
      ensures Pending() == old(msgs) + Requests(Left(old(sendQueue), i))
    {
      sendQueue := Left(sendQueue, i);
      accepted := delivered + Pending();
    }

    /** A sender leaves the queue by timeout or forced release: its message, and no other, is withdrawn. */
    method RelSender(i: nat)
      requires Valid() && i < |sendQueue|
      modifies this`frbufsz, this`tail, this`msgs, this`sendQueue, this`accepted, buffer
      ensures Valid() && delivered == old(delivered)
      ensures Pending() == old(msgs) + Requests(Left(old(sendQueue), i))
      ensures var k := |delivered| + |old(msgs)| + i;
              accepted == old(accepted)[..k] + old(accepted)[k + 1..]
      ensures exists n: nat :: n < |old(sendQueue)| && sendQueue == Left(old(sendQueue), i)[n..]
    {
      hide RingState, QueueOk, RoundSz, RecordSz;
      Withdrawn(delivered, msgs, sendQueue, i);
      LeftOk(sendQueue, i, tpri);
      Withdraw(i);
      ghost var n := MbfWakeup();
    }

    /** tk_chg_pri of a waiting sender; the hook is installed on TA_TPRI buffers only. */
    method ChgPri(i: nat, pri: int)
      requires Valid() && i < |sendQueue| && tpri
      modifies this`frbufsz, this`tail, this`msgs, this`sendQueue, this`accepted, buffer
      ensures Valid() && delivered == old(delivered)
      ensures Pending() == old(msgs) + Requests(Moved(old(sendQueue), i, pri))
      ensures accepted == old(delivered + msgs) + Requests(Moved(old(sendQueue), i, pri))
      ensures exists n: nat :: n <= |old(sendQueue)| && sendQueue == Moved(old(sendQueue), i, pri)[n..]
    {
      hide RingState, QueueOk, RoundSz, RecordSz;
      MovedOk(sendQueue, i, pri);
      sendQueue := Moved(sendQueue, i, pri);
      ghost var p := Pending();
      ghost var n := MbfWakeup();
      accepted := delivered + p;
    }

    /** A receiver leaves the queue by timeout or forced release. */
    method RelReceiver(i: nat)
      requires Valid() && i < |recvQueue|
      modifies this`recvQueue
      ensures Valid() && recvQueue == old(recvQueue)[..i] + old(recvQueue)[i + 1..]
    {
      recvQueue := recvQueue[..i] + recvQueue[i + 1..];
    }
  }

  lemma Withdrawn(d: seq<Message>, ms: seq<Message>, q: seq<Waiter<Message>>, i: nat)
    requires i < |q|
    ensures var a := d + (ms + Requests(q));
            var k := |d| + |ms| + i;
            d + (ms + Requests(Left(q, i))) == a[..k] + a[k + 1..]
  {
    assert Requests(Left(q, i)) == Requests(q)[..i] + Requests(q)[i + 1..];
  }

  lemma FitsLess(q: seq<Waiter<Message>>, free: int, was: int)
    requires free <= was && (q != [] ==> !(RecordSz(q[0].req) <= was))
    ensures q != [] ==> !(RecordSz(q[0].req) <= free)
  {
  }

  lemma JoinedRequests(q: seq<Waiter<Message>>, w: Waiter<Message>)
    ensures Requests(Joined(q, w, false)) == Requests(q) + [w.req]
  {
    assert Joined(q, w, false) == q + [w];
  }
}
