/**
 The two ends of one stream and the messages between them: what the wire carries,
 and the invariant that ties both ends to it. The definitions are symmetric in the
 two ends, so each operation is proved once for both directions.
 */
module AppPair {
  import opened Basics
  import opened AppLimits
  import opened AppMessages
  import opened AppStream
  import opened AppStreamProofs

  // ---- What a wire carries; messages after an APP_RESET no longer matter ----

  predicate HasReset(w: seq<AppMsg>) {
    w != [] && (w[0].AppReset? || HasReset(w[1..]))
  }

  function DataOf(m: AppMsg): Bytes {
    if m.AppData? then m.data else []
  }

  function GrantOf(m: AppMsg): nat {
    if m.AppCredit? then m.bytes else if m.AppAccept? then m.grant else 0
  }

  function Payload(w: seq<AppMsg>): Bytes {
    if w == [] || w[0].AppReset? then [] else DataOf(w[0]) + Payload(w[1..])
  }

  function Grants(w: seq<AppMsg>): nat {
    if w == [] || w[0].AppReset? then 0 else GrantOf(w[0]) + Grants(w[1..])
  }

  predicate Closing(w: seq<AppMsg>) {
    w != [] && !w[0].AppReset? && (w[0].AppClose? || Closing(w[1..]))
  }

  predicate Proper(m: AppMsg) {
    match m
    case AppData(_, data) => 1 <= |data| <= AppMaxDataBytes
    case AppCredit(_, n) => 1 <= n < Uint32Space
    case AppAccept(_, meta, grant) => |meta| <= AppMaxMetaBytes && grant == AppInitialWindow
    case _ => true
  }

  predicate Clean(w: seq<AppMsg>) {
    w == [] || w[0].AppReset? || (Proper(w[0]) && Clean(w[1..]))
  }

  /** The bytes ahead of the first close. */
  function Before(w: seq<AppMsg>): Bytes {
    if w == [] || w[0].AppReset? || w[0].AppClose? then [] else DataOf(w[0]) + Before(w[1..])
  }

  lemma {:induction false} Extend(w: seq<AppMsg>, m: AppMsg)
    ensures HasReset(w + [m]) == (HasReset(w) || m.AppReset?)
    ensures HasReset(w) || m.AppReset? ==>
              && Payload(w + [m]) == Payload(w) && Grants(w + [m]) == Grants(w) && Before(w + [m]) == Before(w)
              && Closing(w + [m]) == Closing(w) && Clean(w + [m]) == Clean(w)
    ensures !HasReset(w) && !m.AppReset? ==>
              && Payload(w + [m]) == Payload(w) + DataOf(m) && Grants(w + [m]) == Grants(w) + GrantOf(m)
              && Before(w + [m]) == Before(w) + (if Closing(w) then [] else DataOf(m))
              && Closing(w + [m]) == (Closing(w) || m.AppClose?) && Clean(w + [m]) == (Clean(w) && Proper(m))
  {
    if w == [] {
      assert w + [m] == [m] && [m][1..] == [];
    } else {
      var rest := w[1..];
      assert (w + [m])[0] == w[0] && (w + [m])[1..] == rest + [m];
      Extend(rest, m);
      assert DataOf(w[0]) + (Payload(rest) + DataOf(m)) == DataOf(w[0]) + Payload(rest) + DataOf(m);
      assert DataOf(w[0]) + (Before(rest) + DataOf(m)) == DataOf(w[0]) + Before(rest) + DataOf(m);
    }
  }

  lemma Pop(w: seq<AppMsg>)
    requires w != [] && !w[0].AppReset?
    ensures HasReset(w[1..]) == HasReset(w)
    ensures Payload(w) == DataOf(w[0]) + Payload(w[1..]) && Grants(w) == GrantOf(w[0]) + Grants(w[1..])
    ensures Before(w) == if w[0].AppClose? then [] else DataOf(w[0]) + Before(w[1..])
    ensures Closing(w) == (w[0].AppClose? || Closing(w[1..]))
    ensures Clean(w) ==> Proper(w[0]) && Clean(w[1..])
  {
  }

  lemma {:induction false} BeforeIsFirst(w: seq<AppMsg>)
    ensures Before(w) <= Payload(w) && (!Closing(w) ==> Before(w) == Payload(w))
  {
    if w != [] {
      BeforeIsFirst(w[1..]);
    }
  }

  // ---- The invariant of one direction: from sender s over sr to receiver r, credit back over rs ----

  /** What has been taken off the wire. */
  function Have(rx: Receiver): Bytes {
    rx.got + Flat(rx.inQ)
  }

  /** Bytes that may still go out. */
  function InHand(s: Stream): Bytes {
    if s.life.reset.None? then s.tx.held else []
  }

  /** The receiver is in its table: the wire holds exactly what it has not seen yet. */
  predicate Carries(s: Stream, r: Stream, sr: seq<AppMsg>) {
    && Clean(sr)
    && Have(r.rx) + Payload(sr) + InHand(s) <= s.tx.wrote
    && (s.life.reset.None? && (s.attached || !s.tx.early) ==>
          Have(r.rx) + Payload(sr) + s.tx.held + Flat(s.tx.sendQ) == s.tx.wrote)
    && |Payload(sr)| + |InHand(s)| <= r.rx.rcvWindow
    && (s.tx.localClosed ==> r.rx.remoteClosed || Closing(sr))
    && (Closing(sr) ==> s.tx.localClosed)
    && (Closing(sr) && !r.rx.remoteClosed ==> (Have(r.rx) + Before(sr) == s.tx.wrote <==> !s.tx.early))
  }

  /**
   A close that went out in order promises everything; one that went out early promises
   too much, and the sender's bytes are never read to the end.
   */
  predicate Flow(s: Stream, r: Stream, sr: seq<AppMsg>, rs: seq<AppMsg>) {
    && r.rx.got <= s.tx.wrote
    && (s.life.reset.None? ==> |r.rx.got| + |s.tx.held| + |Flat(s.tx.sendQ)| <= |s.tx.wrote|)
    && (s.tx.early ==> |r.rx.got| < |s.tx.wrote|)
    && (s.tx.localClosed && !s.tx.early ==> s.tx.held == [])
    && (r.life.reset.None? && r.rx.remoteClosed ==> s.tx.localClosed && (Have(r.rx) == s.tx.wrote <==> !s.tx.early))
    && (r.attached ==> Carries(s, r, sr))
    && (s.attached && r.attached && !s.hs.accepting ==>
          s.tx.sndCredit + |s.tx.held| + |Payload(sr)| + Grants(rs) == r.rx.rcvWindow)
    && (s.attached ==> s.tx.sndCredit + Grants(rs) <= AppInitialWindow)
  }

  /** A reset end has told the other, unless its connection is down or the other is gone. */
  predicate Told(x: Stream, y: Stream, xy: seq<AppMsg>, xDown: bool) {
    && (HasReset(xy) ==> x.life.reset.Some?)
    && (x.life.reset.Some? && y.attached ==> HasReset(xy) || xDown)
    && (xDown ==> !x.attached)
  }

  predicate Linked(x: Stream, y: Stream, xy: seq<AppMsg>, yx: seq<AppMsg>, xDown: bool, yDown: bool) {
    && Flow(x, y, xy, yx) && Flow(y, x, yx, xy)
    && Told(x, y, xy, xDown) && Told(y, x, yx, yDown)
  }

  predicate Duplex(x: Stream, y: Stream, xy: seq<AppMsg>, yx: seq<AppMsg>, xDown: bool, yDown: bool) {
    Sane(x) && Sane(y) && Linked(x, y, xy, yx, xDown, yDown)
  }

  /** What of `sent` reaches the wire. */
  function Emit(down: bool, sent: seq<AppMsg>): seq<AppMsg> {
    if down then [] else sent
  }

  // ---- What does not matter to a direction ----

  /** The part of a stream that the invariant of a pair speaks about, as sender... */
  predicate SameSender(s: Stream, s': Stream) {
    && s'.tx.(closeAfterFlush := s.tx.closeAfterFlush) == s.tx && s'.life.reset == s.life.reset
    && s'.hs.accepting == s.hs.accepting && (s'.attached ==> s.attached)
  }

  /** ...and as receiver. */
  predicate SameReceiver(r: Stream, r': Stream) {
    r'.rx == r.rx && r'.life.reset == r.life.reset && (r'.attached ==> r.attached)
  }

  predicate SameFlow(x: Stream, x': Stream) {
    SameSender(x, x') && SameReceiver(x, x')
  }

  /** Wires that carry the same to the receiver. */
  predicate SameCargo(w: seq<AppMsg>, w': seq<AppMsg>) {
    Payload(w') == Payload(w) && Before(w') == Before(w) && Closing(w') == Closing(w) && (Clean(w) ==> Clean(w'))
  }

  lemma Aside(s: Stream, r: Stream, sr: seq<AppMsg>, rs: seq<AppMsg>,
              s': Stream, r': Stream, sr': seq<AppMsg>, rs': seq<AppMsg>)
    requires Flow(s, r, sr, rs) && SameSender(s, s') && SameReceiver(r, r')
    requires (r'.attached ==> SameCargo(sr, sr')) && (s'.attached ==> Grants(rs') == Grants(rs))
    ensures Flow(s', r', sr', rs')
  {
    hide HasReset, Payload, Before, Grants, Closing, Clean, Have;
  }

  // ---- What the sender can do to its direction ----

  lemma SenderQueues(s: Stream, r: Stream, sr: seq<AppMsg>, rs: seq<AppMsg>, p: Bytes, bytes: int)
    requires Flow(s, r, sr, rs) && s.life.reset.None? && !s.tx.localClosed && !s.tx.early
    ensures Flow(s.(tx := s.tx.(sendQ := s.tx.sendQ + [p], wrote := s.tx.wrote + p), sendBytes := bytes), r, sr, rs)
  {
    hide HasReset, Payload, Before, Grants, Closing, Clean, Have;
    FlatAppend(s.tx.sendQ, p);
    var have := Have(r.rx) + Payload(sr) + s.tx.held;
    assert have + (Flat(s.tx.sendQ) + p) == have + Flat(s.tx.sendQ) + p;
  }

  lemma SenderDequeues(s: Stream, r: Stream, sr: seq<AppMsg>, rs: seq<AppMsg>, n: int, bytes: int)
    requires Flow(s, r, sr, rs) && s.life.reset.None? && !s.tx.localClosed && s.tx.held == [] && s.tx.sendQ != []
    requires s.attached && !s.hs.accepting && 0 <= n <= |s.tx.sendQ[0]| && n <= s.tx.sndCredit
    ensures Flow(s.(tx := s.tx.(sndCredit := s.tx.sndCredit - n, held := s.tx.sendQ[0][..n],
                                sendQ := DropFront(s.tx.sendQ, n)),
                    sendBytes := bytes),
                 r, sr, rs)
  {
    hide HasReset, Payload, Before, Grants, Closing, Clean, Have;
    DropFrontFlat(s.tx.sendQ, n);
    var have, chunk := Have(r.rx) + Payload(sr), s.tx.sendQ[0][..n];
    assert have + s.tx.held + (chunk + Flat(DropFront(s.tx.sendQ, n))) == have + chunk + Flat(DropFront(s.tx.sendQ, n));
  }

  lemma SenderSends(s: Stream, r: Stream, sr: seq<AppMsg>, rs: seq<AppMsg>)
    requires Flow(s, r, sr, rs) && 1 <= |s.tx.held| <= AppMaxDataBytes && 0 <= s.tx.sndCredit
    requires r.attached ==> r.life.reset.None? && (HasReset(sr) <==> s.life.reset.Some?)
    requires s.attached ==> !s.hs.accepting && s.life.reset.None?
    ensures Flow(s.(tx := s.tx.(held := [])), r, sr + [AppData(s.id, s.tx.held)], rs)
  {
    hide HasReset, Payload, Before, Grants, Closing, Clean, Have;
    Extend(sr, AppData(s.id, s.tx.held));
    assert Have(r.rx) + (Payload(sr) + s.tx.held) == Have(r.rx) + Payload(sr) + s.tx.held;
  }

  lemma SenderCloses(s: Stream, r: Stream, sr: seq<AppMsg>, rs: seq<AppMsg>, writer: bool, early: bool)
    requires Flow(s, r, sr, rs) && Sane(s)
    requires s.life.reset.None? && s.tx.sendQ == [] && early == (s.tx.early || s.tx.held != [])
    requires r.attached ==> r.life.reset.None? && !HasReset(sr)
    ensures Flow(s.(tx := s.tx.(closeAfterFlush := true, localClosed := true, early := early), writer := writer), r,
                 sr + [AppClose(s.id)], rs)
  {
    hide HasReset, Payload, Before, Grants, Closing, Clean, Have;
    Extend(sr, AppClose(s.id));
    BeforeIsFirst(sr);
  }

  /** The sender's credit becomes `credit`, taken from the wire back to it. */
  lemma SenderCredited(s: Stream, r: Stream, sr: seq<AppMsg>, rs: seq<AppMsg>, s': Stream, rs': seq<AppMsg>)
    requires Flow(s, r, sr, rs) && SameSender(s, s'.(tx := s'.tx.(sndCredit := s.tx.sndCredit)))
    requires s.attached ==> s'.tx.sndCredit + Grants(rs') == s.tx.sndCredit + Grants(rs)
    ensures Flow(s', r, sr, rs')
  {
    hide HasReset, Payload, Before, Grants, Closing, Clean, Have;
  }

  lemma SenderKilled(s: Stream, r: Stream, sr: seq<AppMsg>, rs: seq<AppMsg>, s': Stream, sr': seq<AppMsg>)
    requires Flow(s, r, sr, rs) && SameCargo(sr, sr') && s'.life.reset.Some? && !s'.attached && s'.tx == s.tx
    ensures Flow(s', r, sr', rs)
  {
    hide HasReset, Payload, Before, Grants, Closing, Clean, Have;
  }

  // ---- What the receiver can do to its direction ----

  /** An early close leaves bytes that the receiver does not have. */
  lemma NotAll(s: Stream, r: Stream, sr: seq<AppMsg>)
    requires Carries(s, r, sr) && s.tx.early && s.tx.localClosed
    requires r.rx.remoteClosed ==> Have(r.rx) != s.tx.wrote
    ensures |Have(r.rx)| < |s.tx.wrote|
  {
    hide Payload, Before, Closing, Clean, Have;
    BeforeIsFirst(sr);
    assert Have(r.rx) <= s.tx.wrote && Have(r.rx) + Before(sr) <= s.tx.wrote;
  }

  /** The receiver reads n bytes and returns as much credit. */
  lemma ReceiverReads(s: Stream, r: Stream, sr: seq<AppMsg>, rs: seq<AppMsg>, n: int, bytes: int, rs': seq<AppMsg>)
    requires Flow(s, r, sr, rs) && Sane(s) && r.attached && r.life.reset.None? && !s.hs.accepting
    requires r.rx.inQ != [] && 1 <= n <= |r.rx.inQ[0]| && r.rx.rcvWindow + n <= AppInitialWindow
    requires s.attached ==> Grants(rs') == Grants(rs) + n
    ensures Flow(s, r.(rx := r.rx.(inQ := DropFront(r.rx.inQ, n), rcvWindow := r.rx.rcvWindow + n,
                                   got := r.rx.got + r.rx.inQ[0][..n]),
                       inBytes := bytes),
                 sr, rs')
  {
    hide HasReset, Payload, Before, Grants, Closing, Clean;
    DropFrontFlat(r.rx.inQ, n);
    var rx' := r.rx.(inQ := DropFront(r.rx.inQ, n), rcvWindow := r.rx.rcvWindow + n,
                     got := r.rx.got + r.rx.inQ[0][..n]);
    assert Have(rx') == Have(r.rx) && |rx'.got| <= |Have(r.rx)| && rx'.got <= Have(r.rx);
    hide Have, Counted, Windowed, Staged, Reported;
    if s.tx.early {
      NotAll(s, r, sr);
    }
  }

  lemma Joined(a: Bytes, b: Bytes, c: Bytes)
    ensures a + (b + c) == a + b + c
  {
  }

  lemma ReceiverTakes(s: Stream, r: Stream, sr: seq<AppMsg>, rs: seq<AppMsg>, bytes: int)
    requires sr != [] && sr[0].AppData? && Flow(s, r, sr, rs) && r.attached && !r.rx.remoteClosed
    ensures Flow(s, r.(rx := r.rx.(rcvWindow := r.rx.rcvWindow - |sr[0].data|, inQ := r.rx.inQ + [sr[0].data]),
                       inBytes := bytes),
                 sr[1..], rs)
  {
    hide HasReset, Payload, Before, Grants, Closing, Clean;
    var data, rest := sr[0].data, sr[1..];
    Pop(sr);
    FlatAppend(r.rx.inQ, data);
    var rx' := r.rx.(rcvWindow := r.rx.rcvWindow - |data|, inQ := r.rx.inQ + [data]);
    Joined(r.rx.got, Flat(r.rx.inQ), data);
    assert Have(rx') == Have(r.rx) + data;
    hide Have, Flat;
    Joined(Have(r.rx), data, Payload(rest));
    Joined(Have(r.rx), data, Before(rest));
  }

  lemma ReceiverCloses(s: Stream, r: Stream, sr: seq<AppMsg>, rs: seq<AppMsg>)
    requires sr != [] && sr[0].AppClose? && Flow(s, r, sr, rs) && r.attached && r.life.reset.None?
    ensures Flow(s, r.(rx := r.rx.(remoteClosed := true)), sr[1..], rs)
  {
    hide HasReset, Payload, Before, Grants, Closing, Clean;
    Pop(sr);
    assert Have(r.rx.(remoteClosed := true)) == Have(r.rx);
    hide Have;
    assert Have(r.rx) + [] == Have(r.rx);
  }

  lemma ReceiverGone(s: Stream, r: Stream, sr: seq<AppMsg>, rs: seq<AppMsg>, r': Stream, sr': seq<AppMsg>)
    requires Flow(s, r, sr, rs) && !r'.attached && r'.rx.got == r.rx.got
    requires r'.life.reset.Some? || (r'.rx == r.rx && r'.life.reset == r.life.reset)
    ensures Flow(s, r', sr', rs)
  {
    hide HasReset, Payload, Before, Grants, Closing, Clean, Carries;
  }

  // ---- The effects an operation of x can have on the pair ----

  /** x is reset; either the wire now ends in APP_RESET or the reset came with the end of y or of the connection. */
  lemma Kill(x: Stream, y: Stream, xy: seq<AppMsg>, yx: seq<AppMsg>, xDown: bool, yDown: bool,
             x': Stream, xy': seq<AppMsg>, xDown': bool)
    requires Linked(x, y, xy, yx, xDown, yDown)
    requires x'.life.reset.Some? && !x'.attached && x'.tx == x.tx && x'.rx.got == x.rx.got
    requires xy' == xy || (xy' != [] && xy'[|xy'| - 1].AppReset? && xy' == xy + [xy'[|xy'| - 1]])
    requires xDown ==> xDown'
    requires y.attached ==> HasReset(xy') || xDown'
    ensures Linked(x', y, xy', yx, xDown', yDown)
  {
    hide HasReset, Payload, Before, Grants, Closing, Clean, Flow;
    if xy' != xy {
      Extend(xy, xy'[|xy'| - 1]);
    }
    SenderKilled(x, y, xy, yx, x', xy');
    ReceiverGone(y, x, yx, xy, x', yx);
    Aside(y, x', yx, xy, y, x', yx, xy');
  }

  /** x queues bytes. */
  lemma Queue(x: Stream, y: Stream, xy: seq<AppMsg>, yx: seq<AppMsg>, xDown: bool, yDown: bool,
              p: Bytes, bytes: int)
    requires Linked(x, y, xy, yx, xDown, yDown) && x.life.reset.None? && !x.tx.localClosed && !x.tx.early
    ensures Linked(x.(tx := x.tx.(sendQ := x.tx.sendQ + [p], wrote := x.tx.wrote + p), sendBytes := bytes),
                   y, xy, yx, xDown, yDown)
  {
    hide HasReset, Payload, Before, Grants, Closing, Clean, Flow;
    SenderQueues(x, y, xy, yx, p, bytes);
    var x' := x.(tx := x.tx.(sendQ := x.tx.sendQ + [p], wrote := x.tx.wrote + p), sendBytes := bytes);
    Aside(y, x, yx, xy, y, x', yx, xy);
  }

  /** x takes bytes from its queue into its hands. */
  lemma Dequeue(x: Stream, y: Stream, xy: seq<AppMsg>, yx: seq<AppMsg>, xDown: bool, yDown: bool,
                n: int, bytes: int)
    requires Linked(x, y, xy, yx, xDown, yDown)
    requires x.life.reset.None? && !x.tx.localClosed && x.tx.held == [] && x.tx.sendQ != []
    requires x.attached && !x.hs.accepting && 0 <= n <= |x.tx.sendQ[0]| && n <= x.tx.sndCredit
    ensures Linked(x.(tx := x.tx.(sndCredit := x.tx.sndCredit - n, held := x.tx.sendQ[0][..n],
                                  sendQ := DropFront(x.tx.sendQ, n)),
                      sendBytes := bytes),
                   y, xy, yx, xDown, yDown)
  {
    hide HasReset, Payload, Before, Grants, Closing, Clean, Flow;
    SenderDequeues(x, y, xy, yx, n, bytes);
    var x' := x.(tx := x.tx.(sndCredit := x.tx.sndCredit - n, held := x.tx.sendQ[0][..n],
                             sendQ := DropFront(x.tx.sendQ, n)),
                 sendBytes := bytes);
    Aside(y, x, yx, xy, y, x', yx, xy);
  }

  /** x puts the bytes in its hands on the wire. */
  lemma Send(x: Stream, y: Stream, xy: seq<AppMsg>, yx: seq<AppMsg>, xDown: bool, yDown: bool)
    requires Linked(x, y, xy, yx, xDown, yDown)
    requires 1 <= |x.tx.held| <= AppMaxDataBytes && !xDown && 0 <= x.tx.sndCredit
    requires y.attached ==> y.life.reset.None?
    requires x.attached ==> !x.hs.accepting && x.life.reset.None?
    ensures Linked(x.(tx := x.tx.(held := [])), y, xy + [AppData(x.id, x.tx.held)], yx, xDown, yDown)
  {
    hide HasReset, Payload, Before, Grants, Closing, Clean, Flow;
    var x', xy' := x.(tx := x.tx.(held := [])), xy + [AppData(x.id, x.tx.held)];
    Extend(xy, AppData(x.id, x.tx.held));
    SenderSends(x, y, xy, yx);
    Aside(y, x, yx, xy, y, x', yx, xy');
  }

  /** x half-closes with an empty queue, in order or ahead of the chunk in its hands; it may have done so before. */
  lemma HalfClose(x: Stream, y: Stream, xy: seq<AppMsg>, yx: seq<AppMsg>, xDown: bool, yDown: bool,
                  writer: bool, early: bool)
    requires Linked(x, y, xy, yx, xDown, yDown) && Sane(x)
    requires x.life.reset.None? && x.tx.sendQ == [] && early == (x.tx.early || x.tx.held != [])
    requires y.attached ==> y.life.reset.None?
    ensures Linked(x.(tx := x.tx.(closeAfterFlush := true, localClosed := true, early := early), writer := writer), y,
                   xy + [AppClose(x.id)], yx, xDown, yDown)
  {
    hide HasReset, Payload, Before, Grants, Closing, Clean, Flow, Sane;
    var xy' := xy + [AppClose(x.id)];
    var x' := x.(tx := x.tx.(closeAfterFlush := true, localClosed := true, early := early), writer := writer);
    Extend(xy, AppClose(x.id));
    SenderCloses(x, y, xy, yx, writer, early);
    Aside(y, x, yx, xy, y, x', yx, xy');
  }

  /** x returns n bytes of credit for n bytes read. */
  lemma Consume(x: Stream, y: Stream, xy: seq<AppMsg>, yx: seq<AppMsg>, xDown: bool, yDown: bool, n: int, bytes: int)
    requires Linked(x, y, xy, yx, xDown, yDown) && Sane(y) && !y.hs.accepting
    requires x.attached && x.life.reset.None? && !xDown && x.rx.inQ != [] && 1 <= n <= |x.rx.inQ[0]|
    requires 0 <= x.rx.rcvWindow && x.rx.rcvWindow + n <= AppInitialWindow
    ensures Linked(x.(rx := x.rx.(inQ := DropFront(x.rx.inQ, n), rcvWindow := x.rx.rcvWindow + n,
                                  got := x.rx.got + x.rx.inQ[0][..n]),
                      inBytes := bytes),
                   y, xy + [AppCredit(x.id, n)], yx, xDown, yDown)
  {
    hide HasReset, Payload, Before, Grants, Closing, Clean, Flow, Sane;
    var xy' := xy + [AppCredit(x.id, n)];
    var x' := x.(rx := x.rx.(inQ := DropFront(x.rx.inQ, n), rcvWindow := x.rx.rcvWindow + n,
                             got := x.rx.got + x.rx.inQ[0][..n]),
                 inBytes := bytes);
    Extend(xy, AppCredit(x.id, n));
    ReceiverReads(y, x, yx, xy, n, bytes, xy');
    Aside(x, y, xy, yx, x', y, xy', yx);
  }

  /** Bookkeeping of x, leaving the table included. */
  lemma Inert(x: Stream, y: Stream, xy: seq<AppMsg>, yx: seq<AppMsg>, xDown: bool, yDown: bool, x': Stream)
    requires Linked(x, y, xy, yx, xDown, yDown)
    requires SameFlow(x, x')
    ensures Linked(x', y, xy, yx, xDown, yDown)
  {
    hide HasReset, Payload, Before, Grants, Closing, Clean, Flow;
    Aside(x, y, xy, yx, x', y, xy, yx);
    Aside(y, x, yx, xy, y, x', yx, xy);
  }

  /** x takes over the bytes of the first message. */
  lemma TakeData(x: Stream, y: Stream, xy: seq<AppMsg>, yx: seq<AppMsg>, xDown: bool, yDown: bool, bytes: int)
    requires yx != [] && yx[0].AppData? && Linked(x, y, xy, yx, xDown, yDown)
    requires x.attached && x.life.reset.None? && !x.rx.remoteClosed
    ensures Linked(x.(rx := x.rx.(rcvWindow := x.rx.rcvWindow - |yx[0].data|, inQ := x.rx.inQ + [yx[0].data]),
                      inBytes := bytes),
                   y, xy, yx[1..], xDown, yDown)
  {
    hide HasReset, Payload, Before, Grants, Closing, Clean, Flow;
    Pop(yx);
    ReceiverTakes(y, x, yx, xy, bytes);
    var x' := x.(rx := x.rx.(rcvWindow := x.rx.rcvWindow - |yx[0].data|, inQ := x.rx.inQ + [yx[0].data]),
                 inBytes := bytes);
    Aside(x, y, xy, yx, x', y, xy, yx[1..]);
  }

  /** x takes the credit of the first message. */
  lemma TakeCredit(x: Stream, y: Stream, xy: seq<AppMsg>, yx: seq<AppMsg>, xDown: bool, yDown: bool)
    requires yx != [] && yx[0].AppCredit? && Linked(x, y, xy, yx, xDown, yDown)
    requires x.attached
    ensures Linked(x.(tx := x.tx.(sndCredit := x.tx.sndCredit + yx[0].bytes)), y, xy, yx[1..], xDown, yDown)
  {
    hide HasReset, Payload, Before, Grants, Closing, Clean, Flow;
    Pop(yx);
    var x' := x.(tx := x.tx.(sndCredit := x.tx.sndCredit + yx[0].bytes));
    SenderCredited(x, y, xy, yx, x', yx[1..]);
    Aside(y, x, yx, xy, y, x', yx[1..], xy);
  }

  /** x learns that y has closed, now or again. */
  lemma TakeClose(x: Stream, y: Stream, xy: seq<AppMsg>, yx: seq<AppMsg>, xDown: bool, yDown: bool)
    requires yx != [] && yx[0].AppClose? && Linked(x, y, xy, yx, xDown, yDown)
    requires x.attached && x.life.reset.None?
    ensures Linked(x.(rx := x.rx.(remoteClosed := true)), y, xy, yx[1..], xDown, yDown)
  {
    hide HasReset, Payload, Before, Grants, Closing, Clean, Flow;
    Pop(yx);
    ReceiverCloses(y, x, yx, xy);
    Aside(x, y, xy, yx, x.(rx := x.rx.(remoteClosed := true)), y, xy, yx[1..]);
  }

  /** The opener takes the grant of APP_ACCEPT. */
  lemma TakeAccept(x: Stream, y: Stream, xy: seq<AppMsg>, yx: seq<AppMsg>, xDown: bool, yDown: bool, ready: int)
    requires yx != [] && yx[0].AppAccept? && Linked(x, y, xy, yx, xDown, yDown)
    requires x.attached && !x.hs.accepting && x.tx.sndCredit == 0
    ensures Linked(x.(hs := x.hs.(opening := false, grant := yx[0].grant, readyCloses := ready),
                      tx := x.tx.(sndCredit := yx[0].grant)),
                   y, xy, yx[1..], xDown, yDown)
  {
    hide HasReset, Payload, Before, Grants, Closing, Clean, Flow;
    Pop(yx);
    var x' := x.(hs := x.hs.(opening := false, grant := yx[0].grant, readyCloses := ready),
                 tx := x.tx.(sndCredit := yx[0].grant));
    SenderCredited(x, y, xy, yx, x', yx[1..]);
    Aside(y, x, yx, xy, y, x', yx[1..], xy);
  }

  /** x is gone and ignores the first message. */
  lemma Ignore(x: Stream, y: Stream, xy: seq<AppMsg>, yx: seq<AppMsg>, xDown: bool, yDown: bool)
    requires yx != [] && Linked(x, y, xy, yx, xDown, yDown) && !x.attached
    ensures Linked(x, y, xy, yx[1..], xDown, yDown)
  {
    hide Flow, Payload, Before, Grants, Closing, Clean;
    ReceiverGone(y, x, yx, xy, x, yx[1..]);
    Aside(x, y, xy, yx, x, y, xy, yx[1..]);
  }

  /** APP_REJECT moves neither bytes nor credit: taking it from the wire... */
  lemma TakeReject(x: Stream, y: Stream, xy: seq<AppMsg>, yx: seq<AppMsg>, xDown: bool, yDown: bool)
    requires yx != [] && yx[0].AppReject? && Linked(x, y, xy, yx, xDown, yDown)
    ensures Linked(x, y, xy, yx[1..], xDown, yDown)
  {
    hide HasReset, Payload, Before, Grants, Closing, Clean, Flow;
    Pop(yx);
    Aside(x, y, xy, yx, x, y, xy, yx[1..]);
    Aside(y, x, yx, xy, y, x, yx[1..], xy);
  }

  /** ...and putting it there. */
  lemma PutReject(x: Stream, y: Stream, xy: seq<AppMsg>, yx: seq<AppMsg>, xDown: bool, yDown: bool, m: AppMsg)
    requires m.AppReject? && Linked(x, y, xy, yx, xDown, yDown)
    ensures Linked(x, y, xy + [m], yx, xDown, yDown)
  {
    hide HasReset, Payload, Before, Grants, Closing, Clean, Flow;
    Extend(xy, m);
    Aside(x, y, xy, yx, x, y, xy + [m], yx);
    Aside(y, x, yx, xy, y, x, yx, xy + [m]);
  }

  /** The acceptor opens both windows and says so. */
  lemma PutAccept(x: Stream, y: Stream, xy: seq<AppMsg>, yx: seq<AppMsg>, xDown: bool, yDown: bool, x': Stream,
                  meta: Bytes)
    requires Linked(x, y, xy, yx, xDown, yDown) && !xDown
    requires x.attached ==> x.life.reset.None? && x.rx.rcvWindow == 0 && Payload(xy) == []
    requires x.attached ==> Grants(yx) == 0 && x.tx.held == []
    requires x.attached && y.attached ==>
               y.rx.rcvWindow == AppInitialWindow && !y.hs.accepting && y.tx.held == []
    requires x.attached && y.attached ==> y.tx.sndCredit == 0 && Grants(xy) == 0
    requires !x.attached ==> x.life.reset.Some?
    requires SameFlow(x, x'.(tx := x'.tx.(sndCredit := x.tx.sndCredit), rx := x'.rx.(rcvWindow := x.rx.rcvWindow),
                             hs := x'.hs.(accepting := x.hs.accepting)))
    requires x'.tx.sndCredit == AppInitialWindow && x'.rx.rcvWindow == AppInitialWindow && !x'.hs.accepting
    requires |meta| <= AppMaxMetaBytes
    ensures Linked(x', y, xy + [AppAccept(x.id, meta, AppInitialWindow)], yx, xDown, yDown)
  {
    hide HasReset, Payload, Before, Grants, Closing, Clean;
    Extend(xy, AppAccept(x.id, meta, AppInitialWindow));
  }
}
