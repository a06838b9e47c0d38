/** The owner text console: a two-party confirmed channel with one sequence
    counter per direction, fail-closed receive and expiry
    (e2ee/owner_text_console.go). AES-GCM is ideal: a ciphertext is either the
    record of one honest seal or bytes that open under no secret key. */
module Console {
  import opened Bytes

  const SEQUENCE_LIMIT: nat := 0x10_0000
  const MAX_PLAINTEXT: nat := 64 * 1024
  const TAG_BYTES: nat := 16

  datatype Keys = Keys(clientToHost: bytes, hostToClient: bytes)

  function ZeroKey(): bytes {
    BigEndian(0, 32)
  }

  /** What both endpoints hold after one bootstrap: the 32-byte hash of the
      encoded descriptor, its lifetime, and the bootstrap transcript hash. */
  datatype Context = Context(descriptorHash: bytes, issuedAt: nat, expiresAt: nat, transcriptHash: bytes)

  datatype Ciphertext =
    | Sealed(key: bytes, nonce: bytes, aad: bytes, plain: bytes)
    | Forged(raw: bytes)
  {
    function Size(): nat {
      if Sealed? then |plain| + TAG_BYTES else |raw|
    }
  }

  function FrameNonce(sequence: nat): bytes {
    [0, 0, 0, 0] + BigEndian(sequence, 8)
  }

  function FrameAAD(ctx: Context, direction: byte, sequence: nat): bytes {
    Ascii("pagnet/owner-text-console/frame/v1") + [0] + ctx.descriptorHash + [direction] + BigEndian(sequence, 8)
  }

  function SealFrame(ctx: Context, key: bytes, direction: byte, sequence: nat, plain: bytes): Option<Ciphertext> {
    if direction > 1 || sequence >= SEQUENCE_LIMIT || |plain| > MAX_PLAINTEXT then None
    else Some(Sealed(key, FrameNonce(sequence), FrameAAD(ctx, direction, sequence), plain))
  }

  function OpenFrame(ctx: Context, key: bytes, direction: byte, sequence: nat, ct: Ciphertext): Option<bytes> {
    if direction > 1 || sequence >= SEQUENCE_LIMIT then None
    else if ct.Size() < TAG_BYTES || ct.Size() > MAX_PLAINTEXT + TAG_BYTES then None
    else if ct.Sealed? && ct.key == key && ct.nonce == FrameNonce(sequence)
            && ct.aad == FrameAAD(ctx, direction, sequence) then Some(ct.plain)
    else None
  }

  /** Associated data determine direction and sequence number, so a frame opens
      in one direction and at one position only. */
  lemma AADInjective(ctx: Context, d: byte, d': byte, m: nat, n: nat)
    requires m < SEQUENCE_LIMIT && n < SEQUENCE_LIMIT
    requires FrameAAD(ctx, d, m) == FrameAAD(ctx, d', n)
    ensures d == d' && m == n
  {
    var head := Ascii("pagnet/owner-text-console/frame/v1") + [0] + ctx.descriptorHash;
    SplitEqual(head + [d], BigEndian(m, 8), head + [d'], BigEndian(n, 8));
    SplitEqual(head, [d], head, [d']);
    assert [d][0] == [d'][0];
    Powers();
    BigEndianInjective(m, n, 8);
  }

  lemma NonceInjective(m: nat, n: nat)
    requires m < SEQUENCE_LIMIT && n < SEQUENCE_LIMIT
    requires FrameNonce(m) == FrameNonce(n)
    ensures m == n
  {
    SplitEqual([0, 0, 0, 0], BigEndian(m, 8), [0, 0, 0, 0], BigEndian(n, 8));
    Powers();
    BigEndianInjective(m, n, 8);
  }

  // ---------------------------------------------------------------- one endpoint

  /** The value of one session object. */
  datatype Session = Session(ctx: Context, keys: Keys, host: bool,
                             sentConfirm: bool, receivedConfirm: bool, closed: bool,
                             sendSeq: nat, receiveSeq: nat)
  {
    function Close(): Session {
      this.(closed := true, keys := Keys(ZeroKey(), ZeroKey()))
    }

    predicate InTime(now: int) {
      ctx.issuedAt <= now < ctx.expiresAt
    }

    predicate Live(now: int) {
      !closed && InTime(now)
    }

    /** An expired or not yet valid session closes on its next use. */
    function Checked(now: int): Session {
      if closed || InTime(now) then this else Close()
    }

    function Direction(send: bool): byte {
      if host == send then 1 else 0
    }

    function DirectionKey(send: bool): bytes {
      if host == send then keys.hostToClient else keys.clientToHost
    }

    function Confirmation(byHost: bool): bytes {
      Ascii("{\"version\":1,\"type\":\"") + Ascii(if byHost then "host_confirm" else "client_confirm")
      + Ascii("\",\"transcriptHash\":\"") + ctx.transcriptHash + Ascii("\"}")
    }

    function SealConfirmation(now: int): (Session, Option<Ciphertext>) {
      if !Live(now) then (Checked(now), None)
      else if sentConfirm || (host && !receivedConfirm) then (this, None)
      else
        var ct := SealFrame(ctx, DirectionKey(true), Direction(true), 0, Confirmation(host));
        if ct.None? then (this, None) else (this.(sentConfirm := true, sendSeq := 1), ct)
    }

    function OpenConfirmation(now: int, sequence: nat, ct: Ciphertext): (Session, bool) {
      if !Live(now) then (Checked(now), false)
      else if sequence != 0 || receivedConfirm || (!host && !sentConfirm) then (Close(), false)
      else if OpenFrame(ctx, DirectionKey(false), Direction(false), sequence, ct) != Some(Confirmation(!host)) then
        (Close(), false)
      else (this.(receivedConfirm := true, receiveSeq := 1), true)
    }

    function Seal(now: int, plain: bytes): (Session, Option<(nat, Ciphertext)>) {
      if !Live(now) then (Checked(now), None)
      else if !sentConfirm || !receivedConfirm then (this, None)
      else
        var ct := SealFrame(ctx, DirectionKey(true), Direction(true), sendSeq, plain);
        if ct.None? then (this, None) else (this.(sendSeq := sendSeq + 1), Some((sendSeq, ct.value)))
    }

    function Open(now: int, sequence: nat, ct: Ciphertext): (Session, Option<bytes>) {
      if !Live(now) then (Checked(now), None)
      else if !sentConfirm || !receivedConfirm || sequence != receiveSeq then (Close(), None)
      else
        var plain := OpenFrame(ctx, DirectionKey(false), Direction(false), sequence, ct);
        if plain.None? then (Close(), None) else (this.(receiveSeq := receiveSeq + 1), plain)
    }
  }

  /** The session object of the source: its lock makes every method one step, so
      each method is proved to compute the step of the value above. */
  class OwnerTextConsoleSession {
    const ctx: Context
    const host: bool
    var keys: Keys
    var sentConfirm: bool
    var receivedConfirm: bool
    var closed: bool
    var sendSeq: nat
    var receiveSeq: nat

    function View(): Session
      reads this
    {
      Session(ctx, keys, host, sentConfirm, receivedConfirm, closed, sendSeq, receiveSeq)
    }

    constructor (ctx: Context, keys: Keys, host: bool)
      ensures View() == Session(ctx, keys, host, false, false, false, 0, 0)
    {
      this.ctx, this.keys, this.host := ctx, keys, host;
      sentConfirm, receivedConfirm, closed, sendSeq, receiveSeq := false, false, false, 0, 0;
    }

    method Close()
      modifies this
      ensures View() == old(View()).Close()
    {
      closed := true;
      keys := Keys(ZeroKey(), ZeroKey());
    }

    method Check(now: int) returns (ok: bool)
      modifies this
      ensures View() == old(View()).Checked(now) && ok == old(View()).Live(now)
    {
      if closed { return false; }
      if now < 0 || now < ctx.issuedAt || now >= ctx.expiresAt {
        Close();
        return false;
      }
      return true;
    }

    method SealConfirmation(now: int) returns (ct: Option<Ciphertext>)
      modifies this
      ensures (View(), ct) == old(View()).SealConfirmation(now)
    {
      var ok := Check(now);
      if !ok || sentConfirm || (host && !receivedConfirm) { return None; }
      ct := SealFrame(ctx, View().DirectionKey(true), View().Direction(true), 0, View().Confirmation(host));
      if ct.None? { return None; }
      sentConfirm := true;
      sendSeq := 1;
    }

    method OpenConfirmation(now: int, sequence: nat, ct: Ciphertext) returns (ok: bool)
      modifies this
      ensures (View(), ok) == old(View()).OpenConfirmation(now, sequence, ct)
    {
      ok := Check(now);
      if !ok { return; }
      if sequence != 0 || receivedConfirm || (!host && !sentConfirm) {
        Close();
        return false;
      }
      var plain := OpenFrame(ctx, View().DirectionKey(false), View().Direction(false), sequence, ct);
      if plain.None? || plain.value != View().Confirmation(!host) {
        Close();
        return false;
      }
      receivedConfirm := true;
      receiveSeq := 1;
    }

    method Seal(now: int, plain: bytes) returns (frame: Option<(nat, Ciphertext)>)
      modifies this
      ensures (View(), frame) == old(View()).Seal(now, plain)
    {
      var ok := Check(now);
      if !ok || !sentConfirm || !receivedConfirm { return None; }
      var sequence := sendSeq;
      var ct := SealFrame(ctx, View().DirectionKey(true), View().Direction(true), sequence, plain);
      if ct.None? { return None; }
      sendSeq := sendSeq + 1;
      frame := Some((sequence, ct.value));
    }

    method Open(now: int, sequence: nat, ct: Ciphertext) returns (plain: Option<bytes>)
      modifies this
      ensures (View(), plain) == old(View()).Open(now, sequence, ct)
    {
      var ok := Check(now);
      if !ok { return None; }
      if !sentConfirm || !receivedConfirm || sequence != receiveSeq {
        Close();
        return None;
      }
      plain := OpenFrame(ctx, View().DirectionKey(false), View().Direction(false), sequence, ct);
      if plain.None? {
        Close();
        return;
      }
      receiveSeq := receiveSeq + 1;
    }
  }

  // ---------------------------------------------------------------- both endpoints and the network

  /** One end of the channel with everything it ever emitted: `frames[i]` is the
      ciphertext it sealed at sequence i, `sent` the plaintexts its Seal accepted,
      `got` the plaintexts its Open returned. */
  datatype End = End(session: Session, frames: seq<Ciphertext>, sent: seq<bytes>, got: seq<bytes>)

  datatype Joint = Joint(ctx: Context, keys: Keys, host: End, client: End) {
    function At(h: bool): End {
      if h then host else client
    }

    function With(h: bool, e: End): Joint {
      if h then this.(host := e) else this.(client := e)
    }

    function SendKey(h: bool): bytes {
      if h then keys.hostToClient else keys.clientToHost
    }
  }

  function Start(ctx: Context, keys: Keys): Joint {
    Joint(ctx, keys,
          End(Session(ctx, keys, true, false, false, false, 0, 0), [], [], []),
          End(Session(ctx, keys, false, false, false, false, 0, 0), [], [], []))
  }

  /** One call on one endpoint, at a clock value and with network input of the
      adversary's choosing. */
  datatype Step =
    | SealConfirmation(host: bool, now: int)
    | OpenConfirmation(host: bool, now: int, sequence: nat, ct: Ciphertext)
    | Seal(host: bool, now: int, plain: bytes)
    | Open(host: bool, now: int, sequence: nat, ct: Ciphertext)
    | Close(host: bool)

  /** The network may drop, replay, reorder, reflect and invent; it cannot make a
      ciphertext that authenticates under a session key nobody sealed with. */
  predicate Deliverable(j: Joint, ct: Ciphertext) {
    ct.Sealed? && ct.key in {j.keys.clientToHost, j.keys.hostToClient}
    ==> ct in j.host.frames || ct in j.client.frames
  }

  predicate Possible(j: Joint, step: Step) {
    (step.OpenConfirmation? || step.Open?) ==> Deliverable(j, step.ct)
  }

  function Next(j: Joint, step: Step): Joint {
    var e := j.At(step.host);
    match step
    case SealConfirmation(h, now) =>
      var (s, ct) := e.session.SealConfirmation(now);
      j.With(h, e.(session := s, frames := if ct.Some? then e.frames + [ct.value] else e.frames))
    case OpenConfirmation(h, now, sequence, ct) =>
      var (s, _) := e.session.OpenConfirmation(now, sequence, ct);
      j.With(h, e.(session := s))
    case Seal(h, now, plain) =>
      var (s, f) := e.session.Seal(now, plain);
      if f.None? then j.With(h, e.(session := s))
      else j.With(h, e.(session := s, frames := e.frames + [f.value.1], sent := e.sent + [plain]))
    case Open(h, now, sequence, ct) =>
      var (s, p) := e.session.Open(now, sequence, ct);
      j.With(h, e.(session := s, got := if p.Some? then e.got + [p.value] else e.got))
    case Close(h) =>
      j.With(h, e.(session := e.session.Close()))
  }

  predicate PossibleRun(j: Joint, steps: seq<Step>)
    decreases |steps|
  {
    steps != [] ==> Possible(j, steps[0]) && PossibleRun(Next(j, steps[0]), steps[1..])
  }

  function Run(j: Joint, steps: seq<Step>): Joint
    decreases |steps|
  {
    if steps == [] then j else Run(Next(j, steps[0]), steps[1..])
  }

  // ---------------------------------------------------------------- the invariant

  /** The plaintext sealed at sequence i: the confirmation first, then what Seal
      was given, in order. */
  function PlainAt(e: End, i: nat): bytes
    requires i <= |e.sent|
  {
    if i == 0 then e.session.Confirmation(e.session.host) else e.sent[i - 1]
  }

  predicate FramesMatch(key: bytes, e: End) {
    && |e.frames| == e.session.sendSeq <= SEQUENCE_LIMIT
    && e.session.sendSeq == (if e.session.sentConfirm then 1 + |e.sent| else 0)
    && (!e.session.sentConfirm ==> e.sent == [])
    && (forall i :: 0 <= i < |e.frames| ==> FrameMatches(key, e, i, e.frames[i]))
  }

  predicate FrameMatches(key: bytes, e: End, i: nat, frame: Ciphertext)
    requires i <= |e.sent|
  {
    && frame == Sealed(key, FrameNonce(i), FrameAAD(e.session.ctx, e.session.Direction(true), i), PlainAt(e, i))
    && |frame.plain| <= MAX_PLAINTEXT
  }

  predicate EndMatches(ctx: Context, keys: Keys, h: bool, e: End, peer: End) {
    && e.session.ctx == ctx && e.session.host == h
    && (!e.session.closed ==> e.session.keys == keys)
    && FramesMatch(if h then keys.hostToClient else keys.clientToHost, e)
    && e.session.receiveSeq == (if e.session.receivedConfirm then 1 + |e.got| else 0)
    && (!e.session.receivedConfirm ==> e.got == [])
    && (e.sent != [] ==> e.session.sentConfirm && e.session.receivedConfirm)
    && (e.session.receivedConfirm ==> peer.session.sentConfirm)
    && e.got <= peer.sent
  }

  predicate Inv(j: Joint) {
    && EndMatches(j.ctx, j.keys, true, j.host, j.client)
    && EndMatches(j.ctx, j.keys, false, j.client, j.host)
    && (j.host.session.sentConfirm ==> j.host.session.receivedConfirm)
    && (j.client.session.receivedConfirm ==> j.client.session.sentConfirm)
  }

  /** A deliverable ciphertext opens for end h exactly when it is the peer's frame
      at that very sequence number. */
  lemma OpensOnlyPeerFrame(j: Joint, h: bool, sequence: nat, ct: Ciphertext)
    requires Inv(j) && Deliverable(j, ct) && !j.At(h).session.closed
    ensures
      var s := j.At(h).session;
      var peer := j.At(!h);
      var result := OpenFrame(s.ctx, s.DirectionKey(false), s.Direction(false), sequence, ct);
      && (result.Some? <==> sequence < |peer.frames| && ct == peer.frames[sequence])
      && (result.Some? ==> result.value == PlainAt(peer, sequence))
  {
    var s := j.At(h).session;
    var result := OpenFrame(s.ctx, s.DirectionKey(false), s.Direction(false), sequence, ct);
    if result.Some? {
      assert ct in j.At(h).frames || ct in j.At(!h).frames;
      if ct in j.At(h).frames {
        var i :| 0 <= i < |j.At(h).frames| && j.At(h).frames[i] == ct;
        AADInjective(j.ctx, s.Direction(true), s.Direction(false), i, sequence);
      }
      var i :| 0 <= i < |j.At(!h).frames| && j.At(!h).frames[i] == ct;
      AADInjective(j.ctx, s.Direction(false), s.Direction(false), i, sequence);
    }
  }

  /** Sealing one more frame at the next sequence number keeps the record of
      frames exact. */
  lemma FramesGrow(key: bytes, e: End, e': End, frame: Ciphertext)
    requires FramesMatch(key, e)
    requires e'.session.ctx == e.session.ctx && e'.session.host == e.session.host
    requires e'.frames == e.frames + [frame] && e.sent <= e'.sent
    requires e'.session.sentConfirm && |e'.frames| == e'.session.sendSeq == 1 + |e'.sent| <= SEQUENCE_LIMIT
    requires FrameMatches(key, e', |e.frames|, frame)
    ensures FramesMatch(key, e')
  {
    forall i | 0 <= i < |e'.frames| ensures FrameMatches(key, e', i, e'.frames[i]) {
      if i < |e.frames| {
        assert FrameMatches(key, e, i, e.frames[i]);
        assert PlainAt(e', i) == PlainAt(e, i);
      }
    }
  }

  lemma StepSealConfirmation(j: Joint, step: Step)
    requires Inv(j) && step.SealConfirmation?
    ensures Inv(Next(j, step))
  {
    var e := j.At(step.host);
    var ct := e.session.SealConfirmation(step.now).1;
    if ct.Some? {
      FramesGrow(j.SendKey(step.host), e, Next(j, step).At(step.host), ct.value);
    }
  }

  lemma StepSeal(j: Joint, step: Step)
    requires Inv(j) && step.Seal?
    ensures Inv(Next(j, step))
  {
    var e := j.At(step.host);
    var f := e.session.Seal(step.now, step.plain).1;
    if f.Some? {
      FramesGrow(j.SendKey(step.host), e, Next(j, step).At(step.host), f.value.1);
    }
  }

  lemma StepOpenConfirmation(j: Joint, step: Step)
    requires Inv(j) && step.OpenConfirmation? && Possible(j, step)
    ensures Inv(Next(j, step))
  {
    if !j.At(step.host).session.closed {
      OpensOnlyPeerFrame(j, step.host, step.sequence, step.ct);
    }
  }

  /** A call that seals nothing leaves the record of frames as it was. */
  lemma FramesKept(key: bytes, e: End, e': End)
    requires FramesMatch(key, e)
    requires e'.frames == e.frames && e'.sent == e.sent
    requires e'.session.ctx == e.session.ctx && e'.session.host == e.session.host
    requires e'.session.sentConfirm == e.session.sentConfirm && e'.session.sendSeq == e.session.sendSeq
    ensures FramesMatch(key, e')
  {
    forall i | 0 <= i < |e'.frames| ensures FrameMatches(key, e', i, e'.frames[i]) {
      assert FrameMatches(key, e, i, e.frames[i]);
      assert PlainAt(e', i) == PlainAt(e, i);
    }
  }

  lemma StepOpen(j: Joint, step: Step)
    requires Inv(j) && step.Open? && Possible(j, step)
    ensures Inv(Next(j, step))
  {
    var h := step.host;
    var e, peer, e' := j.At(h), j.At(!h), Next(j, step).At(h);
    FramesKept(j.SendKey(h), e, e');
    if e.session.Open(step.now, step.sequence, step.ct).1.Some? {
      DeliveredIsNext(j, step);
      ExtendPrefix(e.got, peer.sent);
    }
    assert EndMatches(j.ctx, j.keys, h, e', peer);
    assert EndMatches(j.ctx, j.keys, !h, peer, e');
  }

  /** A delivery is the next message the peer sent. */
  lemma DeliveredIsNext(j: Joint, step: Step)
    requires Inv(j) && step.Open? && Possible(j, step)
    requires j.At(step.host).session.Open(step.now, step.sequence, step.ct).1.Some?
    ensures
      var e, peer := j.At(step.host), j.At(!step.host);
      |e.got| < |peer.sent| && e.session.Open(step.now, step.sequence, step.ct).1.value == peer.sent[|e.got|]
  {
    OpensOnlyPeerFrame(j, step.host, step.sequence, step.ct);
  }

  lemma ExtendPrefix(got: seq<bytes>, sent: seq<bytes>)
    requires got <= sent && |got| < |sent|
    ensures got + [sent[|got|]] <= sent
  {
  }

  lemma StepKeepsInv(j: Joint, step: Step)
    requires Inv(j) && Possible(j, step)
    ensures Inv(Next(j, step))
  {
    match step
    case SealConfirmation(_, _) => StepSealConfirmation(j, step);
    case OpenConfirmation(_, _, _, _) => StepOpenConfirmation(j, step);
    case Seal(_, _, _) => StepSeal(j, step);
    case Open(_, _, _, _) => StepOpen(j, step);
    case Close(_) =>
  }

  lemma {:induction false} RunKeepsInv(j: Joint, steps: seq<Step>)
    requires Inv(j) && PossibleRun(j, steps)
    ensures Inv(Run(j, steps))
    decreases |steps|
  {
    if steps != [] {
      StepKeepsInv(j, steps[0]);
      RunKeepsInv(Next(j, steps[0]), steps[1..]);
    }
  }

  lemma StartInv(ctx: Context, keys: Keys)
    ensures Inv(Start(ctx, keys))
  {
  }

  // ---------------------------------------------------------------- theorems over all runs

  /** Whatever the network does, what one side's Open returned is a prefix, in
      order, of what the other side's Seal accepted: no replay, reflection,
      reordering, gap or invention is ever delivered. */
  lemma DeliveredIsPrefixOfSent(ctx: Context, keys: Keys, steps: seq<Step>, h: bool)
    requires PossibleRun(Start(ctx, keys), steps)
    ensures Run(Start(ctx, keys), steps).At(h).got <= Run(Start(ctx, keys), steps).At(!h).sent
  {
    StartInv(ctx, keys);
    RunKeepsInv(Start(ctx, keys), steps);
  }

  /** The confirmations are forced into one order, and no application frame exists
      before its sender has finished the handshake. */
  lemma HandshakeOrder(ctx: Context, keys: Keys, steps: seq<Step>)
    requires PossibleRun(Start(ctx, keys), steps)
    ensures
      var j := Run(Start(ctx, keys), steps);
      && (j.client.session.receivedConfirm ==> j.host.session.sentConfirm)
      && (j.host.session.sentConfirm ==> j.host.session.receivedConfirm)
      && (j.host.session.receivedConfirm ==> j.client.session.sentConfirm)
      && (j.host.sent != [] ==> j.host.session.sentConfirm && j.host.session.receivedConfirm)
      && (j.client.sent != [] ==> j.client.session.sentConfirm && j.client.session.receivedConfirm)
  {
    StartInv(ctx, keys);
    RunKeepsInv(Start(ctx, keys), steps);
  }

  /** The nonce rule of section 8 of NIST SP 800-38D: with distinct directional
      keys no (key, nonce) pair ever seals twice, and no counter passes the limit. */
  lemma NonceNeverReused(ctx: Context, keys: Keys, steps: seq<Step>, h: bool, i: nat, h': bool, i': nat)
    requires PossibleRun(Start(ctx, keys), steps)
    requires keys.clientToHost != keys.hostToClient
    requires i < |Run(Start(ctx, keys), steps).At(h).frames|
    requires i' < |Run(Start(ctx, keys), steps).At(h').frames|
    requires (h, i) != (h', i')
    ensures
      var j := Run(Start(ctx, keys), steps);
      var f, f' := j.At(h).frames[i], j.At(h').frames[i'];
      && f.Sealed? && f'.Sealed?
      && (f.key, f.nonce) != (f'.key, f'.nonce)
      && j.At(h).session.sendSeq <= SEQUENCE_LIMIT
  {
    StartInv(ctx, keys);
    RunKeepsInv(Start(ctx, keys), steps);
    RunKeepsBootstrap(Start(ctx, keys), steps);
    var j := Run(Start(ctx, keys), steps);
    assert FrameMatches(j.SendKey(h), j.At(h), i, j.At(h).frames[i]);
    assert FrameMatches(j.SendKey(h'), j.At(h'), i', j.At(h').frames[i']);
    if h == h' && FrameNonce(i) == FrameNonce(i') {
      NonceInjective(i, i');
    }
  }

  lemma {:induction false} RunKeepsBootstrap(j: Joint, steps: seq<Step>)
    ensures Run(j, steps).ctx == j.ctx && Run(j, steps).keys == j.keys
    decreases |steps|
  {
    if steps != [] {
      RunKeepsBootstrap(Next(j, steps[0]), steps[1..]);
    }
  }

  /** In every reachable state Open accepts exactly the peer's next frame, and
      returns exactly what the peer sealed into it. */
  lemma OpenAcceptsExactlyTheNextFrame(ctx: Context, keys: Keys, steps: seq<Step>,
                                       h: bool, now: int, sequence: nat, ct: Ciphertext)
    requires PossibleRun(Start(ctx, keys), steps)
    requires Deliverable(Run(Start(ctx, keys), steps), ct)
    ensures
      var j := Run(Start(ctx, keys), steps);
      var e, peer := j.At(h), j.At(!h);
      var plain := e.session.Open(now, sequence, ct).1;
      && (plain.Some? <==>
            && !e.session.closed && ctx.issuedAt <= now < ctx.expiresAt
            && e.session.sentConfirm && e.session.receivedConfirm
            && sequence == 1 + |e.got| < |peer.frames| && ct == peer.frames[sequence])
      && (plain.Some? ==> |e.got| < |peer.sent| && plain.value == peer.sent[|e.got|])
  {
    StartInv(ctx, keys);
    RunKeepsInv(Start(ctx, keys), steps);
    RunKeepsBootstrap(Start(ctx, keys), steps);
    var j := Run(Start(ctx, keys), steps);
    if !j.At(h).session.closed {
      OpensOnlyPeerFrame(j, h, sequence, ct);
    }
  }

  /** In every reachable state OpenConfirmation accepts exactly the peer's own
      confirmation, once, and at the client only after its own was sent. */
  lemma ConfirmationAcceptsExactlyThePeers(ctx: Context, keys: Keys, steps: seq<Step>,
                                           h: bool, now: int, sequence: nat, ct: Ciphertext)
    requires PossibleRun(Start(ctx, keys), steps)
    requires Deliverable(Run(Start(ctx, keys), steps), ct)
    ensures
      var j := Run(Start(ctx, keys), steps);
      var e, peer := j.At(h), j.At(!h);
      e.session.OpenConfirmation(now, sequence, ct).1 <==>
        && !e.session.closed && ctx.issuedAt <= now < ctx.expiresAt
        && sequence == 0 && !e.session.receivedConfirm && (h || e.session.sentConfirm)
        && 0 < |peer.frames| && ct == peer.frames[0]
  {
    StartInv(ctx, keys);
    RunKeepsInv(Start(ctx, keys), steps);
    RunKeepsBootstrap(Start(ctx, keys), steps);
    var j := Run(Start(ctx, keys), steps);
    if !j.At(h).session.closed {
      OpensOnlyPeerFrame(j, h, sequence, ct);
    }
  }

  /** In every reachable state Seal emits exactly when both confirmations are done,
      in time, within the size and below the counter limit; the frame carries the
      sequence number after the last one. */
  lemma SealAcceptsExactly(ctx: Context, keys: Keys, steps: seq<Step>, h: bool, now: int, plain: bytes)
    requires PossibleRun(Start(ctx, keys), steps)
    ensures
      var j := Run(Start(ctx, keys), steps);
      var e := j.At(h);
      var frame := e.session.Seal(now, plain).1;
      && (frame.Some? <==>
            && !e.session.closed && ctx.issuedAt <= now < ctx.expiresAt
            && e.session.sentConfirm && e.session.receivedConfirm
            && 1 + |e.sent| < SEQUENCE_LIMIT && |plain| <= MAX_PLAINTEXT)
      && (frame.Some? ==> frame.value.0 == 1 + |e.sent|)
  {
    StartInv(ctx, keys);
    RunKeepsInv(Start(ctx, keys), steps);
    RunKeepsBootstrap(Start(ctx, keys), steps);
  }

  /** A confirmation binds the whole bootstrap: even with the same keys, one session
      accepts another's only in the opposite role and for the same descriptor and
      transcript. */
  lemma ConfirmationBindsTheBootstrap(s: Session, peer: Session, now: int, later: int)
    requires |s.ctx.descriptorHash| == |peer.ctx.descriptorHash| && |s.ctx.transcriptHash| == |peer.ctx.transcriptHash|
    requires peer.SealConfirmation(now).1.Some?
    requires s.OpenConfirmation(later, 0, peer.SealConfirmation(now).1.value).1
    ensures s.host != peer.host
    ensures s.ctx.descriptorHash == peer.ctx.descriptorHash && s.ctx.transcriptHash == peer.ctx.transcriptHash
  {
    var tag := Ascii("pagnet/owner-text-console/frame/v1") + [0];
    var a, b := s.ctx.descriptorHash, peer.ctx.descriptorHash;
    var d, e := s.Direction(false), peer.Direction(true);
    SplitEqual(tag + a + [d], BigEndian(0, 8), tag + b + [e], BigEndian(0, 8));
    SplitEqual(tag + a, [d], tag + b, [e]);
    SplitEqual(tag, a, tag, b);
    assert [d][0] == [e][0];
    var head := Ascii("{\"version\":1,\"type\":\"") + Ascii(if peer.host then "host_confirm" else "client_confirm")
      + Ascii("\",\"transcriptHash\":\"");
    SplitEqual(head + s.ctx.transcriptHash, Ascii("\"}"), head + peer.ctx.transcriptHash, Ascii("\"}"));
    SplitEqual(head, s.ctx.transcriptHash, head, peer.ctx.transcriptHash);
  }

  // ---------------------------------------------------------------- closing

  predicate IsZeroKey(key: bytes) {
    |key| == 32 && forall i :: 0 <= i < |key| ==> key[i] == 0
  }

  /** Closed for good: no key left to seal or open with. */
  predicate Wiped(s: Session) {
    s.closed && IsZeroKey(s.keys.clientToHost) && IsZeroKey(s.keys.hostToClient)
  }

  lemma {:induction false} ZerosAreZero(w: nat)
    ensures forall i :: 0 <= i < w ==> BigEndian(0, w)[i] == 0
  {
    if w > 0 {
      ZerosAreZero(w - 1);
    }
  }

  lemma ClosingWipes(s: Session)
    ensures Wiped(s.Close()) && (Wiped(s) ==> s.Close() == s)
  {
    ZerosAreZero(32);
    if Wiped(s) {
      assert s.keys.clientToHost == ZeroKey() && s.keys.hostToClient == ZeroKey();
    }
  }

  /** In every reachable state a closed end has zero keys. */
  lemma {:induction false} ClosedIsWiped(j: Joint, steps: seq<Step>, h: bool)
    requires j.At(h).session.closed ==> Wiped(j.At(h).session)
    ensures Run(j, steps).At(h).session.closed ==> Wiped(Run(j, steps).At(h).session)
    decreases |steps|
  {
    if steps != [] {
      ClosingWipes(j.At(h).session);
      ClosedIsWiped(Next(j, steps[0]), steps[1..], h);
    }
  }

  /** A receive step after which nothing more was delivered or confirmed. */
  predicate RefusedReceive(j: Joint, step: Step) {
    var e, e' := j.At(step.host), Next(j, step).At(step.host);
    || (step.Open? && e'.got == e.got)
    || (step.OpenConfirmation? && !(e'.session.receivedConfirm && !e.session.receivedConfirm))
  }

  predicate UsedOutOfTime(ctx: Context, step: Step) {
    !step.Close? && !(ctx.issuedAt <= step.now < ctx.expiresAt)
  }

  /** What one call leaves closed and what it leaves open: an end is closed after a
      step of its own exactly when it was closed before, was closed by its owner,
      was used outside its lifetime, or refused what it received. In particular a
      refused Seal closes nothing. */
  lemma StepCloses(j: Joint, step: Step)
    ensures
      var s := j.At(step.host).session;
      Next(j, step).At(step.host).session.closed <==>
        s.closed || step.Close? || UsedOutOfTime(s.ctx, step) || RefusedReceive(j, step)
  {
    var e, e' := j.At(step.host), Next(j, step).At(step.host);
    if step.Open? {
      assert e'.got == e.got || |e'.got| == |e.got| + 1;
    }
  }

  /** In every reachable state a call closes its end exactly when it is the owner's
      Close, comes outside the lifetime, or is a receive that delivers and confirms
      nothing. A closed end holds two keys of 32 zero bytes, an open one the session
      keys, and no call touches the other end. */
  lemma ClosesExactlyWhen(ctx: Context, keys: Keys, steps: seq<Step>, step: Step)
    requires PossibleRun(Start(ctx, keys), steps) && Possible(Run(Start(ctx, keys), steps), step)
    ensures
      var j := Run(Start(ctx, keys), steps);
      var h := step.host;
      var after := Next(j, step).At(h).session;
      && (after.closed <==>
            j.At(h).session.closed || step.Close? || UsedOutOfTime(ctx, step) || RefusedReceive(j, step))
      && (after.closed ==> IsZeroKey(after.keys.clientToHost) && IsZeroKey(after.keys.hostToClient))
      && (!after.closed ==> after.keys == keys)
      && Next(j, step).At(!h) == j.At(!h)
  {
    StartInv(ctx, keys);
    RunKeepsInv(Start(ctx, keys), steps);
    RunKeepsBootstrap(Start(ctx, keys), steps);
    ClosedIsWiped(Start(ctx, keys), steps, step.host);
    var j := Run(Start(ctx, keys), steps);
    ClosingWipes(j.At(step.host).session);
    StepCloses(j, step);
  }

  /** Closing is final: whatever is called afterwards, an end that is closed with
      both keys zero stays as it is, emits nothing and delivers nothing. */
  lemma {:induction false} ClosedIsFinal(j: Joint, steps: seq<Step>, h: bool)
    requires j.At(h).session.closed
    requires IsZeroKey(j.At(h).session.keys.clientToHost) && IsZeroKey(j.At(h).session.keys.hostToClient)
    ensures Run(j, steps).At(h) == j.At(h)
    decreases |steps|
  {
    if steps != [] {
      ClosingWipes(j.At(h).session);
      ClosedIsFinal(Next(j, steps[0]), steps[1..], h);
    }
  }

  /** A failed receive permanently closes the session: from the refusing call on,
      and in every continuation of every run, that end holds no key, delivers
      nothing, emits nothing and confirms nothing. */
  lemma FailedReceiveIsFinal(ctx: Context, keys: Keys, before: seq<Step>, step: Step, after: seq<Step>)
    requires PossibleRun(Start(ctx, keys), before) && Possible(Run(Start(ctx, keys), before), step)
    requires RefusedReceive(Run(Start(ctx, keys), before), step)
    ensures
      var j := Run(Start(ctx, keys), before);
      var e, last := j.At(step.host), Run(Next(j, step), after).At(step.host);
      && last.session.closed
      && IsZeroKey(last.session.keys.clientToHost) && IsZeroKey(last.session.keys.hostToClient)
      && last.got == e.got && last.sent == e.sent && last.frames == e.frames
      && last.session.receivedConfirm == e.session.receivedConfirm
  {
    ClosesExactlyWhen(ctx, keys, before, step);
    ClosedIsFinal(Next(Run(Start(ctx, keys), before), step), after, step.host);
  }

  // ---------------------------------------------------------------- an honest network delivers everything

  lemma {:induction false} RunAppend(j: Joint, a: seq<Step>, b: seq<Step>)
    requires PossibleRun(j, a) && PossibleRun(Run(j, a), b)
    ensures PossibleRun(j, a + b) && Run(j, a + b) == Run(Run(j, a), b)
    decreases |a|
  {
    if a == [] {
      assert a + b == b;
    } else {
      assert (a + b)[0] == a[0] && (a + b)[1..] == a[1..] + b;
      var j1 := Next(j, a[0]);
      assert PossibleRun(j1, a[1..]) && Run(j, a) == Run(j1, a[1..]);
      RunAppend(j1, a[1..], b);
    }
  }

  /** Both ends open, in time and confirmed, and `!h` has everything `h` sent. */
  predicate InStep(j: Joint, now: int, h: bool) {
    && Inv(j)
    && j.host.session.Live(now) && j.client.session.Live(now)
    && j.host.session.sentConfirm && j.host.session.receivedConfirm
    && j.client.session.sentConfirm && j.client.session.receivedConfirm
    && j.At(!h).got == j.At(h).sent
  }

  lemma Handshake(ctx: Context, keys: Keys, now: int, h: bool) returns (steps: seq<Step>)
    requires ctx.issuedAt <= now < ctx.expiresAt && |ctx.transcriptHash| == 44
    ensures PossibleRun(Start(ctx, keys), steps)
    ensures InStep(Run(Start(ctx, keys), steps), now, h)
    ensures Run(Start(ctx, keys), steps).At(h).sent == []
  {
    var j0 := Start(ctx, keys);
    var s1, s2 := ClientConfirms(ctx, keys, now);
    var j2 := Next(Next(j0, s1), s2);
    var s3, s4 := HostConfirms(j2, now);
    steps := [s1, s2, s3, s4];
    FourSteps(j0, s1, s2, s3, s4);
  }

  /** The client's confirmation is sealed and accepted. */
  lemma ClientConfirms(ctx: Context, keys: Keys, now: int) returns (s1: Step, s2: Step)
    requires ctx.issuedAt <= now < ctx.expiresAt && |ctx.transcriptHash| == 44
    ensures
      var j0 := Start(ctx, keys);
      && Possible(j0, s1) && Possible(Next(j0, s1), s2)
      && Halfway(Next(Next(j0, s1), s2), now)
  {
    var j0 := Start(ctx, keys);
    StartInv(ctx, keys);
    s1 := Step.SealConfirmation(false, now);
    var j1 := Next(j0, s1);
    StepKeepsInv(j0, s1);
    s2 := Step.OpenConfirmation(true, now, 0, j1.client.frames[0]);
    OpensOnlyPeerFrame(j1, true, 0, j1.client.frames[0]);
    StepKeepsInv(j1, s2);
  }

  /** The client has confirmed and the host has accepted; nothing else has happened. */
  predicate Halfway(j: Joint, now: int) {
    && Inv(j) && j.host.session.Live(now) && j.client.session.Live(now) && |j.ctx.transcriptHash| == 44
    && j.client.session.sentConfirm && !j.client.session.receivedConfirm
    && j.host.session.receivedConfirm && !j.host.session.sentConfirm
    && j.host.sent == [] && j.client.sent == [] && j.host.got == [] && j.client.got == []
  }

  /** The host's confirmation is sealed and accepted. */
  lemma HostConfirms(j: Joint, now: int) returns (s3: Step, s4: Step)
    requires Halfway(j, now)
    ensures Possible(j, s3) && Possible(Next(j, s3), s4)
    ensures
      var j4 := Next(Next(j, s3), s4);
      InStep(j4, now, true) && InStep(j4, now, false) && j4.host.sent == [] && j4.client.sent == []
  {
    s3 := Step.SealConfirmation(true, now);
    var j3 := Next(j, s3);
    StepKeepsInv(j, s3);
    s4 := Step.OpenConfirmation(false, now, 0, j3.host.frames[0]);
    OpensOnlyPeerFrame(j3, false, 0, j3.host.frames[0]);
    StepKeepsInv(j3, s4);
  }

  lemma FourSteps(j: Joint, a: Step, b: Step, c: Step, d: Step)
    requires Possible(j, a) && Possible(Next(j, a), b)
    requires Possible(Next(Next(j, a), b), c) && Possible(Next(Next(Next(j, a), b), c), d)
    ensures PossibleRun(j, [a, b, c, d])
    ensures Run(j, [a, b, c, d]) == Next(Next(Next(Next(j, a), b), c), d)
  {
    TwoSteps(j, a, b);
    TwoSteps(Next(Next(j, a), b), c, d);
    RunAppend(j, [a, b], [c, d]);
    assert [a, b] + [c, d] == [a, b, c, d];
  }

  lemma TwoSteps(j: Joint, a: Step, b: Step)
    requires Possible(j, a) && Possible(Next(j, a), b)
    ensures PossibleRun(j, [a, b]) && Run(j, [a, b]) == Next(Next(j, a), b)
  {
    assert [a, b][1..] == [b] && [b][1..] == [];
    assert Run(Next(j, a), [b]) == Next(Next(j, a), b);
  }

  lemma SealWhenInStep(j: Joint, now: int, h: bool, plain: bytes)
    requires InStep(j, now, h) && |plain| <= MAX_PLAINTEXT && |j.At(h).sent| + 1 < SEQUENCE_LIMIT
    ensures
      var j1 := Next(j, Step.Seal(h, now, plain));
      && Inv(j1)
      && j1.At(!h) == j.At(!h)
      && j1.At(h).session == j.At(h).session.(sendSeq := 2 + |j.At(h).sent|)
      && j1.At(h).sent == j.At(h).sent + [plain] && j1.At(h).got == j.At(h).got
      && |j1.At(h).frames| == |j.At(h).frames| + 1 == 2 + |j.At(h).sent|
  {
    StepKeepsInv(j, Step.Seal(h, now, plain));
  }

  lemma OpenWhenBehind(j: Joint, now: int, h: bool)
    requires Inv(j) && j.At(!h).session.Live(now)
    requires j.At(!h).session.sentConfirm && j.At(!h).session.receivedConfirm
    requires |j.At(h).frames| == 2 + |j.At(!h).got|
    ensures
      var n := 1 + |j.At(!h).got|;
      var step := Step.Open(!h, now, n, j.At(h).frames[n]);
      var j1 := Next(j, step);
      && Possible(j, step) && Inv(j1)
      && j1.At(h) == j.At(h)
      && j1.At(!h).session == j.At(!h).session.(receiveSeq := n + 1)
      && |j1.At(!h).got| == n
  {
    var n := 1 + |j.At(!h).got|;
    OpensOnlyPeerFrame(j, !h, n, j.At(h).frames[n]);
    StepKeepsInv(j, Step.Open(!h, now, n, j.At(h).frames[n]));
  }

  /** One message sealed and its frame delivered. */
  lemma Exchange(j: Joint, now: int, h: bool, plain: bytes) returns (steps: seq<Step>)
    requires InStep(j, now, h) && |plain| <= MAX_PLAINTEXT && |j.At(h).sent| + 1 < SEQUENCE_LIMIT
    ensures PossibleRun(j, steps) && InStep(Run(j, steps), now, h)
    ensures Run(j, steps).At(h).sent == j.At(h).sent + [plain]
  {
    var s1 := Step.Seal(h, now, plain);
    SealWhenInStep(j, now, h, plain);
    var j1 := Next(j, s1);
    OpenWhenBehind(j1, now, h);
    var n := 1 + |j1.At(!h).got|;
    var s2 := Step.Open(!h, now, n, j1.At(h).frames[n]);
    steps := [s1, s2];
    TwoSteps(j, s1, s2);
    var j2 := Next(j1, s2);
    assert j2.At(!h).got == j2.At(h).sent;
  }

  /** The channel is not merely safe: for every list of messages within the limits
      there is a run in which a faithful network delivers all of them. */
  lemma FaithfulNetworkDeliversAll(ctx: Context, keys: Keys, now: int, h: bool, messages: seq<bytes>)
    returns (steps: seq<Step>)
    requires ctx.issuedAt <= now < ctx.expiresAt && |ctx.transcriptHash| == 44
    requires |messages| < SEQUENCE_LIMIT
    requires forall i :: 0 <= i < |messages| ==> |messages[i]| <= MAX_PLAINTEXT
    ensures PossibleRun(Start(ctx, keys), steps)
    ensures Run(Start(ctx, keys), steps).At(h).sent == messages
    ensures Run(Start(ctx, keys), steps).At(!h).got == messages
  {
    var handshake := Handshake(ctx, keys, now, h);
    steps := DeliverFirst(Start(ctx, keys), handshake, now, h, messages, |messages|);
    assert messages[..|messages|] == messages;
  }

  /** A run that ends in step with exactly `list` delivered. */
  predicate Delivers(j: Joint, steps: seq<Step>, now: int, h: bool, list: seq<bytes>) {
    PossibleRun(j, steps) && InStep(Run(j, steps), now, h) && Run(j, steps).At(h).sent == list
  }

  lemma {:induction false} DeliverFirst(j: Joint, handshake: seq<Step>, now: int, h: bool, messages: seq<bytes>, n: nat)
    returns (steps: seq<Step>)
    requires Delivers(j, handshake, now, h, [])
    requires n <= |messages| < SEQUENCE_LIMIT
    requires forall i :: 0 <= i < |messages| ==> |messages[i]| <= MAX_PLAINTEXT
    ensures Delivers(j, steps, now, h, messages[..n])
    decreases n
  {
    if n == 0 {
      assert messages[..0] == [];
      steps := handshake;
    } else {
      var before := DeliverFirst(j, handshake, now, h, messages, n - 1);
      assert messages[..n] == messages[..n - 1] + [messages[n - 1]];
      steps := DeliverOneMore(j, before, now, h, messages[..n - 1], messages[n - 1]);
    }
  }

  lemma DeliverOneMore(j: Joint, before: seq<Step>, now: int, h: bool, list: seq<bytes>, plain: bytes) returns (steps: seq<Step>)
    requires Delivers(j, before, now, h, list) && |plain| <= MAX_PLAINTEXT && |list| + 1 < SEQUENCE_LIMIT
    ensures Delivers(j, steps, now, h, list + [plain])
  {
    var more := Exchange(Run(j, before), now, h, plain);
    RunAppend(j, before, more);
    steps := before + more;
  }
}
