/** The bus as the drivers see it. The I2C class (open/ioctl/read/write on
    a device file) is not part of this model; in its place a scripted
    transport answers each register write with an acknowledgement and each
    burst read with a reply, and records every transfer the driver issued.

    The drivers' writeRegister and readRegister throw an exception when the
    transport reports a failure, so an operation either completes (Done) or
    is cut short at the failing transfer (Abort), carrying the shadow state
    it had reached. */
module Transport {
  import opened Integers

  /** One transfer issued to the bus, with its outcome. A read is the
      register-select write followed by the burst read; readRegister
      ignores the outcome of the select write, so only the read counts. */
  datatype Event =
    | Wrote(dev: uint8, reg: uint8, value: uint8, ok: bool)
    | Fetched(dev: uint8, reg: uint8, count: nat, ok: bool)

  /** Scripted transport: the acknowledgements the next writes will get,
      the replies the next reads will get, and the transfers so far. A
      missing acknowledgement is a failed write; a missing reply, or one
      whose length is not the requested count, is a failed read. */
  datatype Link = Link(acks: seq<bool>, replies: seq<seq<uint8>>, trace: seq<Event>)

  /** Which version of a driver a session runs: the source as written,
      or with the defects the findings name corrected. */
  datatype Build = AsWritten | Corrected

  /** Outcome of a driver operation on state S returning a T. */
  datatype Step<S, T> = Done(state: S, link: Link, value: T) | Abort(state: S, link: Link)

  /** The next write will be acknowledged. */
  predicate Accepts(l: Link)
  {
    |l.acks| > 0 && l.acks[0]
  }

  /** The next read of `count` bytes will succeed. */
  predicate Delivers(l: Link, count: nat)
  {
    |l.replies| > 0 && |l.replies[0]| == count
  }

  /** The first k writes will all be acknowledged. */
  predicate AcceptsAll(acks: seq<bool>, k: nat)
    ensures AcceptsAll(acks, k) ==> k <= |acks|
  {
    k == 0 || (|acks| > 0 && acks[0] && AcceptsAll(acks[1..], k - 1))
  }

  /** The first k reads of `count` bytes will all succeed. */
  predicate DeliversAll(replies: seq<seq<uint8>>, k: nat, count: nat)
    ensures DeliversAll(replies, k, count) ==> k <= |replies|
  {
    k == 0 || (|replies| > 0 && |replies[0]| == count && DeliversAll(replies[1..], k - 1, count))
  }

  /** k acknowledgements are the first one and k - 1 after it. */
  lemma AcceptsAllStep(acks: seq<bool>, k: nat)
    requires k > 0
    ensures AcceptsAll(acks, k) <==> |acks| > 0 && acks[0] && AcceptsAll(acks[1..], k - 1)
  {
  }

  /** k good replies are the first one and k - 1 after it. */
  lemma DeliversAllStep(replies: seq<seq<uint8>>, k: nat, count: nat)
    requires k > 0
    ensures DeliversAll(replies, k, count) <==>
              |replies| > 0 && |replies[0]| == count && DeliversAll(replies[1..], k - 1, count)
  {
  }

  /** The acknowledgements of k writes, one by one. */
  lemma {:induction false} AcceptsAllEach(acks: seq<bool>, k: nat)
    ensures AcceptsAll(acks, k) <==> k <= |acks| && forall i | 0 <= i < k :: acks[i]
  {
    if k > 0 && |acks| > 0 {
      AcceptsAllEach(acks[1..], k - 1);
      assert forall i | 1 <= i < k && i <= |acks| - 1 :: acks[i] == acks[1..][i - 1];
    }
  }

  /** a + b acknowledgements are a of them and b after those. */
  lemma {:induction false} AcceptsAllSplit(acks: seq<bool>, a: nat, b: nat)
    ensures AcceptsAll(acks, a + b) <==> AcceptsAll(acks, a) && AcceptsAll(acks[a..], b)
  {
    if a == 0 {
      assert acks[0..] == acks;
    } else if a <= |acks| {
      AcceptsAllSplit(acks[1..], a - 1, b);
      assert acks[1..][a - 1..] == acks[a..];
    }
  }

  /** a + b good replies are a of them and b after those. */
  lemma {:induction false} DeliversAllSplit(replies: seq<seq<uint8>>, a: nat, b: nat, count: nat)
    ensures DeliversAll(replies, a + b, count) <==> DeliversAll(replies, a, count) && DeliversAll(replies[a..], b, count)
  {
    if a == 0 {
      assert replies[0..] == replies;
    } else if a <= |replies| {
      DeliversAllSplit(replies[1..], a - 1, b, count);
      assert replies[1..][a - 1..] == replies[a..];
    }
  }

  /** Single-byte register write. */
  function Write(l: Link, dev: uint8, reg: uint8, value: uint8): (r: Link)
    ensures r.trace == l.trace + [Wrote(dev, reg, value, Accepts(l))]
    ensures r.replies == l.replies
    ensures |l.acks| > 0 ==> r.acks == l.acks[1..]
  {
    l.(acks := if |l.acks| > 0 then l.acks[1..] else [],
       trace := l.trace + [Wrote(dev, reg, value, Accepts(l))])
  }

  /** Burst read of `count` bytes starting at register `reg`. */
  function Read(l: Link, dev: uint8, reg: uint8, count: nat): (r: Link)
    ensures r.trace == l.trace + [Fetched(dev, reg, count, Delivers(l, count))]
    ensures r.acks == l.acks
    ensures |l.replies| > 0 ==> r.replies == l.replies[1..]
  {
    l.(replies := if |l.replies| > 0 then l.replies[1..] else [],
       trace := l.trace + [Fetched(dev, reg, count, Delivers(l, count))])
  }

  /** A driver's writeRegister followed by the shadow assignment guarded by
      its result: on an acknowledged write the state becomes `updated`, on
      a failed one the exception leaves it at `s`. */
  function WriteStep<S>(s: S, l: Link, dev: uint8, reg: uint8, value: uint8, updated: S): (r: Step<S, ()>)
    ensures r.Done? <==> Accepts(l)
    ensures r.Done? ==> r.state == updated
    ensures r.Abort? ==> r.state == s
    ensures r.link == Write(l, dev, reg, value)
    ensures Conducted(l, r.link, r.Done?, dev)
  {
    var l' := Write(l, dev, reg, value);
    if Accepts(l) then Done(updated, l', ()) else Abort(s, l')
  }

  /** A driver's readRegister: the state is untouched either way. */
  function ReadStep<S>(s: S, l: Link, dev: uint8, reg: uint8, count: nat): (r: Step<S, seq<uint8>>)
    ensures r.Done? <==> Delivers(l, count)
    ensures r.state == s
    ensures r.Done? ==> r.value == l.replies[0] && |r.value| == count
    ensures r.link == Read(l, dev, reg, count)
    ensures Conducted(l, r.link, r.Done?, dev)
  {
    var l' := Read(l, dev, reg, count);
    if Delivers(l, count) then Done(s, l', l.replies[0]) else Abort(s, l')
  }

  /** The transfers of one operation: all address `dev`, each succeeded
      except possibly the last, and the last failed exactly when the
      operation aborted (so an aborted operation issued at least one). No
      transfer follows a failure, which is what the throwing
      writeRegister/readRegister guarantee. */
  predicate Issued(events: seq<Event>, done: bool, dev: uint8)
  {
    if |events| == 0 then done
    else if |events| == 1 then events[0].dev == dev && events[0].ok == done
    else events[0].dev == dev && events[0].ok && Issued(events[1..], done, dev)
  }

  /** `after` extends `before` by the transfers of one operation. */
  predicate Conducted(before: Link, after: Link, done: bool, dev: uint8)
  {
    && |before.trace| <= |after.trace|
    && after.trace[..|before.trace|] == before.trace
    && Issued(after.trace[|before.trace|..], done, dev)
  }

  /** The transfers of a completed operation followed by those of
      another are the transfers of one operation. */
  lemma {:induction false} IssuedAppend(a: seq<Event>, b: seq<Event>, done: bool, dev: uint8)
    requires Issued(a, true, dev)
    requires Issued(b, done, dev)
    ensures Issued(a + b, done, dev)
  {
    if |a| == 0 {
      assert a + b == b;
    } else if |a| == 1 {
      if |b| > 0 {
        assert (a + b)[1..] == b;
      }
    } else {
      IssuedAppend(a[1..], b, done, dev);
      assert (a + b)[1..] == a[1..] + b;
    }
  }

  /** An operation that completes and a following one compose. */
  lemma ConductedChain(l0: Link, l1: Link, l2: Link, done: bool, dev: uint8)
    requires Conducted(l0, l1, true, dev)
    requires Conducted(l1, l2, done, dev)
    ensures Conducted(l0, l2, done, dev)
  {
    var n0, n1 := |l0.trace|, |l1.trace|;
    assert l2.trace[..n0] == l1.trace[..n1][..n0];
    assert l2.trace[n0..] == l1.trace[n0..] + l2.trace[n1..] by {
      assert l2.trace == l1.trace + l2.trace[n1..];
    }
    IssuedAppend(l1.trace[n0..], l2.trace[n1..], done, dev);
  }

  /** Every transfer of an operation addresses its device. */
  lemma {:induction false} IssuedAddresses(events: seq<Event>, done: bool, dev: uint8)
    requires Issued(events, done, dev)
    ensures forall i | 0 <= i < |events| :: events[i].dev == dev
  {
    if |events| > 1 {
      IssuedAddresses(events[1..], done, dev);
      assert forall i | 1 <= i < |events| :: events[i] == events[1..][i - 1];
    }
  }

  /** Every transfer an operation appended addresses its device. */
  lemma ConductedAddresses(before: Link, after: Link, done: bool, dev: uint8)
    requires Conducted(before, after, done, dev)
    ensures forall i | |before.trace| <= i < |after.trace| :: after.trace[i].dev == dev
  {
    var n := |before.trace|;
    IssuedAddresses(after.trace[n..], done, dev);
    assert forall i | n <= i < |after.trace| :: after.trace[i] == after.trace[n..][i - n];
  }

  /** The value the device register `reg` at address `dev` holds according
      to the trace: the last acknowledged write to it, if any. */
  function LastWritten(trace: seq<Event>, dev: uint8, reg: uint8): (v: Option<uint8>)
    ensures v.Some? ==> exists i | 0 <= i < |trace| :: trace[i] == Wrote(dev, reg, v.value, true)
  {
    if |trace| == 0 then None
    else
      var e := trace[|trace| - 1];
      if e.Wrote? && e.ok && e.dev == dev && e.reg == reg then Some(e.value)
      else LastWritten(trace[..|trace| - 1], dev, reg)
  }

  /** An acknowledged write determines its register; any other transfer
      leaves every other register as it was. */
  lemma LastWrittenAppend(trace: seq<Event>, e: Event, dev: uint8, reg: uint8)
    ensures e.Wrote? && e.ok && e.dev == dev && e.reg == reg ==>
              LastWritten(trace + [e], dev, reg) == Some(e.value)
    ensures !(e.Wrote? && e.ok && e.dev == dev && e.reg == reg) ==>
              LastWritten(trace + [e], dev, reg) == LastWritten(trace, dev, reg)
  {
    assert (trace + [e])[..|trace|] == trace;
  }

  /** The registers at `dev` agree with a driver's view of them: every
      register to which `image` gives a value and which was last written
      (acknowledged) in the trace holds that value. */
  predicate Agrees(trace: seq<Event>, dev: uint8, image: uint8 -> Option<uint8>)
  {
    forall reg: uint8 | image(reg).Some? && LastWritten(trace, dev, reg).Some? ::
      image(reg) == LastWritten(trace, dev, reg)
  }

  /** One more transfer keeps the agreement when the view changes only
      in the register an acknowledged write set, and there to the value
      written or to no value. */
  lemma AgreesAppend(trace: seq<Event>, dev: uint8, e: Event, before: uint8 -> Option<uint8>, after: uint8 -> Option<uint8>)
    requires e.Wrote? && e.ok && e.dev == dev && after(e.reg).Some? ==> after(e.reg) == Some(e.value)
    requires forall reg: uint8 | !(e.Wrote? && e.ok && e.dev == dev && e.reg == reg) :: after(reg) == before(reg)
    ensures Agrees(trace, dev, before) ==> Agrees(trace + [e], dev, after)
  {
    if Agrees(trace, dev, before) {
      forall reg: uint8 | after(reg).Some? && LastWritten(trace + [e], dev, reg).Some?
        ensures after(reg) == LastWritten(trace + [e], dev, reg)
      {
        LastWrittenAppend(trace, e, dev, reg);
      }
    }
  }

  /** A driver's write keeps the agreement when its view on success
      differs from the old one only at the register written, and there
      holds the code written or nothing; a refused write keeps the old
      view. */
  lemma WriteKeepsAgreement<S>(s: S, l: Link, dev: uint8, reg: uint8, code: uint8, u: S,
                               before: uint8 -> Option<uint8>, after: uint8 -> Option<uint8>)
    requires after(reg).Some? ==> after(reg) == Some(code)
    requires forall other: uint8 | other != reg :: after(other) == before(other)
    ensures var r := WriteStep(s, l, dev, reg, code, u);
      Agrees(l.trace, dev, before) ==> Agrees(r.link.trace, dev, if r.Done? then after else before)
  {
    if Accepts(l) {
      AgreesAppend(l.trace, dev, Wrote(dev, reg, code, true), before, after);
    } else {
      AgreesAppend(l.trace, dev, Wrote(dev, reg, code, false), before, before);
    }
  }
}
