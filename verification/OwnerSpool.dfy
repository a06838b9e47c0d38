/** The owner text message spool (sdk/owner_text_project_message_spool.go): one
    authenticated file per message, a budget checked by an incremental count, and
    metadata space set aside at reservation so that retiring or abandoning a message
    never needs any. Each file write is atomic; a call may stop before its write. */
module OwnerSpool {
  import opened Bytes
  import opened Durable
  import opened Sums

  const SPOOL_COUNT := 256
  const SPOOL_BYTES := 16 * 1024 * 1024
  const METADATA_BYTES := 4 * 1024 * 1024

  /** `rest` holds the other header fields, `wellFormed` the verdict on all of them,
      `encoded` the length of the reservation's JSON. */
  datatype Reservation = Reservation(id: string, project: string, sender: string, expires: int, rest: bytes,
                                     wellFormed: bool, encoded: nat)

  datatype Phase = Reserved | Prepared | Abandoned | Admitted {
    function Name(): string {
      match this
      case Reserved => "reserved"
      case Prepared => "prepared"
      case Abandoned => "abandoned"
      case Admitted => "admitted"
    }
  }

  datatype Record = Record(reservation: Reservation, phase: Phase, digest: string, admission: nat, wire: bytes, evidence: bytes) {
    predicate Pending() {
      phase.Reserved? || phase.Prepared?
    }
  }

  /** `hash` is SHA-256, `evidence` the local HMAC over a wire. */
  datatype Config = Config(principal: string, hash: bytes -> bytes, evidence: bytes -> bytes) {
    ghost predicate Valid() {
      forall w :: |hash(w)| == 32 && |evidence(w)| == 32
    }
  }

  // ---------------------------------------------------------------- encoded lengths

  function Digits(n: nat): (d: nat)
    ensures d >= 1
  {
    if n < 10 then 1 else 1 + Digits(n / 10)
  }

  const MAX_SEQ := 0x7fff_ffff_ffff_ffff

  lemma {:induction false} DigitsGrow(a: nat, b: nat)
    requires a <= b
    ensures Digits(a) <= Digits(b)
  {
    if a >= 10 { DigitsGrow(a / 10, b / 10); }
  }

  /** A byte slice in JSON: null when absent, else quoted base64. */
  function BlobLength(b: bytes): nat {
    if b == [] then 4 else 2 + 4 * ((|b| + 2) / 3)
  }

  /** The names, quotes and separators of the record's JSON, and its 32 byte MAC. */
  const FRAME := 91 + 46

  function Length(r: Record): nat {
    FRAME + r.reservation.encoded + |r.phase.Name()| + |r.digest| + Digits(r.admission) + BlobLength(r.wire) + BlobLength(r.evidence)
  }

  function Zeros(n: nat): bytes {
    seq(n, _ => 0)
  }

  function ZeroText(n: nat): string {
    seq(n, _ => '0')
  }

  /** What a record is charged for metadata from the day it is reserved. */
  function Charge(r: Record): nat {
    Length(r.(wire := [], phase := Abandoned, digest := ZeroText(64), admission := MAX_SEQ, evidence := Zeros(32)))
  }

  lemma ChargeDependsOnlyOnReservation(a: Record, b: Record)
    requires a.reservation == b.reservation
    ensures Charge(a) == Charge(b)
  {
  }

  // ---------------------------------------------------------------- what the reader demands

  predicate HexHash(s: string) {
    |s| == 64 && forall c :: c in s ==> '0' <= c <= '9' || 'a' <= c <= 'f'
  }

  function HexChar(n: int): (c: char)
    requires 0 <= n < 16
    ensures '0' <= c <= '9' || 'a' <= c <= 'f'
  {
    if n < 10 then '0' + n as char else 'a' + (n - 10) as char
  }

  function Hex(b: bytes): (s: string)
    ensures |s| == 2 * |b| && forall c :: c in s ==> '0' <= c <= '9' || 'a' <= c <= 'f'
  {
    if b == [] then "" else [HexChar(b[0] as int / 16), HexChar(b[0] as int % 16)] + Hex(b[1..])
  }

  predicate Shape(cfg: Config, r: Record) {
    && r.reservation.wellFormed && r.reservation.sender == cfg.principal
    && match r.phase
       case Reserved => r.wire == [] && r.evidence == [] && r.digest == "" && r.admission == 0
       case Prepared =>
         r.wire != [] && r.digest == Hex(cfg.hash(r.wire)) && r.admission == 0 && r.evidence == cfg.evidence(r.wire)
       case Abandoned =>
         && r.wire == [] && r.admission == 0
         && (if r.digest == "" then r.evidence == [] else HexHash(r.digest) && |r.evidence| == 32)
       case Admitted => r.wire == [] && HexHash(r.digest) && 0 < r.admission <= MAX_SEQ && |r.evidence| == 32
  }

  /** A tombstone is never longer than the space set aside for it. */
  lemma TombstoneFitsItsCharge(cfg: Config, r: Record)
    requires Shape(cfg, r) && !r.Pending()
    ensures Length(r) <= Charge(r)
  {
    DigitsGrow(r.admission, MAX_SEQ);
    assert BlobLength(Zeros(32)) == 46;
  }

  // ---------------------------------------------------------------- usage

  type Disk = map<string, File<Record>>

  function Weigh(disk: Disk, weight: Record -> nat): map<string, nat> {
    map id | id in disk :: if disk[id].Authentic? then weight(disk[id].value) else 0
  }

  function PendingWeight(r: Record): nat {
    if r.Pending() then Length(r) else 0
  }

  function ProjectWeight(project: string, r: Record): nat {
    if r.Pending() && r.reservation.project == project then 1 else 0
  }

  ghost function PendingBytes(disk: Disk): nat {
    Sum(Weigh(disk, PendingWeight))
  }

  ghost function MetadataBytes(disk: Disk): nat {
    Sum(Weigh(disk, Charge))
  }

  ghost function PendingIn(disk: Disk, project: string): nat {
    Sum(Weigh(disk, r => ProjectWeight(project, r)))
  }

  ghost predicate WithinBudget(disk: Disk) {
    && PendingBytes(disk) <= SPOOL_BYTES && MetadataBytes(disk) <= METADATA_BYTES
    && forall project: string :: PendingIn(disk, project) <= SPOOL_COUNT
  }

  lemma WeighPut(disk: Disk, id: string, r: Record, weight: Record -> nat)
    ensures Sum(Weigh(disk[id := Authentic(r)], weight)) ==
      Sum(Weigh(disk, weight)) + weight(r)
      - (if id in disk && disk[id].Authentic? then weight(disk[id].value) else 0)
  {
    SumPut(Weigh(disk, weight), id, weight(r));
    assert Weigh(disk[id := Authentic(r)], weight) == Weigh(disk, weight)[id := weight(r)];
  }

  lemma WeighWithout(disk: Disk, id: string, weight: Record -> nat)
    requires id in disk
    ensures Sum(Weigh(disk, weight)) ==
      Sum(Weigh(disk - {id}, weight)) + (if disk[id].Authentic? then weight(disk[id].value) else 0)
  {
    SumWithout(Weigh(disk, weight), id);
    assert Weigh(disk, weight) - {id} == Weigh(disk - {id}, weight);
  }

  // ---------------------------------------------------------------- the calls

  datatype Receipt = Receipt(message: string, admission: int, digest: bytes, timesOk: bool)

  datatype Call =
    | Reserve(reservation: Reservation, now: int)
    | Store(reservation: Reservation, wire: bytes, evidence: bytes, now: int)
    | Retire(project: string, id: string, receipt: Receipt)
    | Abandon(project: string, id: string)

  /** A file the reader accepts under its own name. */
  predicate Readable(cfg: Config, disk: Disk, id: string) {
    && id in disk && disk[id].Authentic? && Shape(cfg, disk[id].value)
    && disk[id].value.reservation.id == id && Length(disk[id].value) <= SPOOL_BYTES
  }

  predicate Expired(f: File<Record>, now: int) {
    f.Authentic? && !f.value.Pending() && f.value.reservation.expires <= now
  }

  /** The directory after a scan: tombstones past their project's expiry are gone. */
  function Swept(disk: Disk, now: int): Disk {
    map id | id in disk && !Expired(disk[id], now) :: disk[id]
  }

  /** A scan succeeds when every file reads and what it leaves is within budget. */
  ghost predicate Scans(cfg: Config, disk: Disk, now: int) {
    (forall id :: id in disk ==> Readable(cfg, disk, id)) && WithinBudget(Swept(disk, now))
  }

  predicate ReceiptMatches(receipt: Receipt, r: Record) {
    && HexHash(r.digest) && |receipt.digest| == 32 && Hex(receipt.digest) == r.digest
    && receipt.message == r.reservation.id && 0 < receipt.admission <= MAX_SEQ && receipt.timesOk
    && (r.phase.Admitted? ==> receipt.admission == r.admission)
  }

  /** What a call writes last, if it gets that far: one record under its ID, in a
      directory the calls that scan have swept. */
  datatype Effect = Refused | Unchanged | Writes(id: string, r: Record, swept: bool)

  ghost function Decide(cfg: Config, disk: Disk, call: Call): Effect {
    match call
    case Reserve(reservation, now) =>
      if !reservation.wellFormed || reservation.sender != cfg.principal || !Scans(cfg, disk, now) then Refused
      else
        var r := Record(reservation, Reserved, "", 0, [], []);
        var base := Swept(disk, now);
        if PendingBytes(base) + Length(r) > SPOOL_BYTES || MetadataBytes(base) + Charge(r) > METADATA_BYTES
           || PendingIn(base, reservation.project) + 1 > SPOOL_COUNT || reservation.id in base then Refused
        else Writes(reservation.id, r, true)
    case Store(reservation, wire, evidence, now) =>
      var id := reservation.id;
      if !Readable(cfg, disk, id) || disk[id].value.reservation != reservation || wire == []
         || evidence != cfg.evidence(wire) || !disk[id].value.Pending() then Refused
      else
        var r := disk[id].value;
        if r.phase.Prepared? then if r.wire == wire && r.evidence == evidence then Unchanged else Refused
        else if !Scans(cfg, disk, now) then Refused
        else
          var r' := r.(phase := Prepared, wire := wire, evidence := evidence, digest := Hex(cfg.hash(wire)));
          var base := Swept(disk, now);
          if PendingBytes(base) + Length(r') - Length(r) > SPOOL_BYTES then Refused else Writes(id, r', true)
    case Retire(project, id, receipt) =>
      if !Readable(cfg, disk, id) || disk[id].value.reservation.project != project || disk[id].value.phase.Reserved?
         || !ReceiptMatches(receipt, disk[id].value) then Refused
      else if disk[id].value.phase.Admitted? then Unchanged
      else Writes(id, disk[id].value.(phase := Admitted, wire := [], admission := receipt.admission), false)
    case Abandon(project, id) =>
      if !Readable(cfg, disk, id) || disk[id].value.reservation.project != project || disk[id].value.phase.Admitted? then Refused
      else if disk[id].value.phase.Abandoned? then Unchanged
      else Writes(id, disk[id].value.(phase := Abandoned, wire := []), false)
  }

  function TimeOf(call: Call): int {
    if call.Reserve? || call.Store? then call.now else 0
  }

  function Applied(disk: Disk, call: Call, effect: Effect): Disk {
    if effect.Writes? then
      (if effect.swept then Swept(disk, TimeOf(call)) else disk)[effect.id := Authentic(effect.r)]
    else disk
  }

  // ---------------------------------------------------------------- one call

  /** How a record may change: reserved to prepared, reserved or prepared to abandoned,
      prepared or digest-bearing abandoned to admitted. What was set stays. */
  predicate Moves(a: Record, b: Record) {
    && b.reservation == a.reservation
    && match (a.phase, b.phase)
       case (Reserved, Prepared) => true
       case (Reserved, Abandoned) => b.digest == "" && b.evidence == []
       case (Prepared, Abandoned) => b.digest == a.digest && b.evidence == a.evidence
       case (Prepared, Admitted) => b.digest == a.digest && b.evidence == a.evidence
       case (Abandoned, Admitted) => a.digest != "" && b.digest == a.digest && b.evidence == a.evidence
       case _ => false
  }

  /** Every record a call writes passes the reader's checks for its state, and follows
      one of the allowed moves from the record it replaces. */
  lemma WriteIsShaped(cfg: Config, disk: Disk, call: Call)
    requires cfg.Valid() && Decide(cfg, disk, call).Writes?
    ensures
      var w := Decide(cfg, disk, call);
      && Shape(cfg, w.r) && w.r.reservation.id == w.id
      && (if call.Reserve? then w.id !in Swept(disk, call.now) && w.r.phase.Reserved?
          else w.id in disk && disk[w.id].Authentic? && Moves(disk[w.id].value, w.r))
      && (call.Reserve? || call.Store? ==> w.r.reservation == call.reservation)
      && (call.Store? ==> w.r.phase.Prepared? && w.r.wire == call.wire)
  {
    var w := Decide(cfg, disk, call);
    if call.Store? {
      assert |cfg.evidence(call.wire)| == 32 && |cfg.hash(call.wire)| == 32;
    } else if !call.Reserve? && disk[w.id].value.phase.Prepared? {
      assert |cfg.evidence(disk[w.id].value.wire)| == 32 && |cfg.hash(disk[w.id].value.wire)| == 32;
    }
  }

  lemma {:induction false} HexInjective(a: bytes, b: bytes)
    requires Hex(a) == Hex(b)
    ensures a == b
    decreases |a|
  {
    if a != [] && b != [] {
      var x, y := Hex(a[1..]), Hex(b[1..]);
      assert Hex(a) == [HexChar(a[0] / 16), HexChar(a[0] % 16)] + x && Hex(b) == [HexChar(b[0] / 16), HexChar(b[0] % 16)] + y;
      SplitEqual([HexChar(a[0] / 16), HexChar(a[0] % 16)], x, [HexChar(b[0] / 16), HexChar(b[0] % 16)], y);
      HexCharInjective(a[0] / 16, b[0] / 16);
      HexCharInjective(a[0] % 16, b[0] % 16);
      HexInjective(a[1..], b[1..]);
      assert a == [a[0]] + a[1..] && b == [b[0]] + b[1..];
    }
  }

  lemma HexCharInjective(m: int, n: int)
    requires 0 <= m < 16 && 0 <= n < 16 && HexChar(m) == HexChar(n)
    ensures m == n
  {
    assert HexChar(m) as int == if m < 10 then 48 + m else 87 + m;
    assert HexChar(n) as int == if n < 10 then 48 + n else 87 + n;
  }

  /** An admission is recorded only on a receipt for this message whose digest is the
      hash of the very wire stored, and keeps the receipt's sequence number. */
  lemma AdmissionBindsTheWire(cfg: Config, disk: Disk, call: Call)
    requires call.Retire? && Decide(cfg, disk, call).Writes? && disk[call.id].value.phase.Prepared?
    ensures
      var w := Decide(cfg, disk, call);
      && w.id == call.id == call.receipt.message && w.r.phase.Admitted? && w.r.admission == call.receipt.admission > 0
      && call.receipt.digest == cfg.hash(disk[call.id].value.wire)
  {
    HexInjective(call.receipt.digest, cfg.hash(disk[call.id].value.wire));
  }

  /** The count a reserving call keeps is what a fresh recount would find. */
  lemma ReserveCountsRight(base: Disk, r: Record)
    requires r.reservation.id !in base && r.phase.Reserved?
    ensures
      var after := base[r.reservation.id := Authentic(r)];
      && PendingBytes(after) == PendingBytes(base) + Length(r)
      && MetadataBytes(after) == MetadataBytes(base) + Charge(r)
      && forall p: string :: PendingIn(after, p) == PendingIn(base, p) + if p == r.reservation.project then 1 else 0
  {
    var id := r.reservation.id;
    WeighPut(base, id, r, PendingWeight);
    WeighPut(base, id, r, Charge);
    forall p: string
      ensures PendingIn(base[id := Authentic(r)], p) == PendingIn(base, p) + if p == r.reservation.project then 1 else 0
    {
      WeighPut(base, id, r, x => ProjectWeight(p, x));
    }
  }

  /** Replacing a record of the same reservation: metadata never changes, and the
      other counts change by exactly the difference of the two records. */
  lemma ReplaceCountsRight(base: Disk, a: Record, b: Record)
    requires var id := a.reservation.id; id in base && base[id] == Authentic(a) && b.reservation == a.reservation
    ensures
      var after := base[a.reservation.id := Authentic(b)];
      && PendingBytes(after) == PendingBytes(base) - PendingWeight(a) + PendingWeight(b)
      && MetadataBytes(after) == MetadataBytes(base)
      && forall p: string :: PendingIn(after, p) == PendingIn(base, p) - ProjectWeight(p, a) + ProjectWeight(p, b)
  {
    var id := a.reservation.id;
    ChargeDependsOnlyOnReservation(a, b);
    WeighPut(base, id, b, PendingWeight);
    WeighPut(base, id, b, Charge);
    forall p: string
      ensures PendingIn(base[id := Authentic(b)], p) == PendingIn(base, p) - ProjectWeight(p, a) + ProjectWeight(p, b)
    {
      WeighPut(base, id, b, x => ProjectWeight(p, x));
    }
  }
}
