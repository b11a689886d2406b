/** `SendStatus`: the progress marks of one send, an option set whose raw
    value goes into the sending-issue report. Each stage is one bit. */
module SendStatus {

  datatype Stage =
    | FetchEmailOK | GetBody | UpdateBuilder | ProcessKeyResponse | CheckMimeAndPlainText
    | SetAtts | GoNext | CheckMime | BuildMime | CheckPlainText | BuildPlainText
    | InitBuilders | EncodeBody | BuildSend | Sending | Done | DoneWithError | ExceptionCatched

  /** The bit position of a stage. */
  function Position(s: Stage): (r: nat)
    ensures r < 18
  {
    match s
    case FetchEmailOK => 0
    case GetBody => 1
    case UpdateBuilder => 2
    case ProcessKeyResponse => 3
    case CheckMimeAndPlainText => 4
    case SetAtts => 5
    case GoNext => 6
    case CheckMime => 7
    case BuildMime => 8
    case CheckPlainText => 9
    case BuildPlainText => 10
    case InitBuilders => 11
    case EncodeBody => 12
    case BuildSend => 13
    case Sending => 14
    case Done => 15
    case DoneWithError => 16
    case ExceptionCatched => 17
  }

  /** Distinct stages have distinct bits. */
  lemma PositionInjective(a: Stage, b: Stage)
    ensures Position(a) == Position(b) <==> a == b
  {
  }

  function Pow2(k: nat): (r: nat)
    ensures r >= 1
  {
    if k == 0 then 1 else 2 * Pow2(k - 1)
  }

  /** The option value of a single stage: `1 << position`. */
  function Bit(s: Stage): nat {
    Pow2(Position(s))
  }

  /** The status so far: the set of stages inserted. `justStart` is the
      empty set, raw value 0. */
  type Status = set<Stage>

  const JustStart: Status := {}

  /** `insert`: the status only ever grows. */
  function Insert(st: Status, s: Stage): (r: Status)
    ensures st <= r && s in r && r - st <= {s}
  {
    st + {s}
  }

  /** The stage at bit position k, if any. */
  function StageAt(k: nat): (r: Stage)
    requires k < 18
    ensures Position(r) == k
  {
    if k == 0 then FetchEmailOK else if k == 1 then GetBody else if k == 2 then UpdateBuilder
    else if k == 3 then ProcessKeyResponse else if k == 4 then CheckMimeAndPlainText
    else if k == 5 then SetAtts else if k == 6 then GoNext else if k == 7 then CheckMime
    else if k == 8 then BuildMime else if k == 9 then CheckPlainText else if k == 10 then BuildPlainText
    else if k == 11 then InitBuilders else if k == 12 then EncodeBody else if k == 13 then BuildSend
    else if k == 14 then Sending else if k == 15 then Done else if k == 16 then DoneWithError
    else ExceptionCatched
  }

  /** The raw value of the bits 0 .. k-1 of a status. */
  function RawBelow(st: Status, k: nat): (r: nat)
    requires k <= 18
    ensures r < Pow2(k)
    decreases k
  {
    if k == 0 then 0
    else RawBelow(st, k - 1) + (if StageAt(k - 1) in st then Pow2(k - 1) else 0)
  }

  /** `rawValue`. */
  function RawValue(st: Status): nat {
    RawBelow(st, 18)
  }

  /** Inserting a stage adds its bit when it is new and nothing otherwise;
      the raw value therefore only grows as a send progresses. */
  lemma {:induction false} InsertRawBelow(st: Status, s: Stage, k: nat)
    requires k <= 18
    ensures RawBelow(Insert(st, s), k) == RawBelow(st, k) + (if Position(s) < k && s !in st then Bit(s) else 0)
    decreases k
  {
    if k > 0 {
      InsertRawBelow(st, s, k - 1);
      var t := StageAt(k - 1);
      PositionInjective(t, s);
    }
  }

  lemma InsertRaw(st: Status, s: Stage)
    ensures RawValue(Insert(st, s)) == RawValue(st) + (if s in st then 0 else Bit(s))
    ensures RawValue(st) <= RawValue(Insert(st, s))
  {
    InsertRawBelow(st, s, 18);
  }

  /** Statuses with equal partial raw values agree on every stage below. */
  lemma {:induction false} RawBelowInjective(a: Status, b: Status, k: nat)
    requires k <= 18 && RawBelow(a, k) == RawBelow(b, k)
    ensures forall s :: Position(s) < k ==> (s in a <==> s in b)
    decreases k
  {
    if k > 0 {
      var t := StageAt(k - 1);
      var ra := RawBelow(a, k - 1);
      var rb := RawBelow(b, k - 1);
      assert RawBelow(a, k) == ra + (if t in a then Pow2(k - 1) else 0);
      assert RawBelow(b, k) == rb + (if t in b then Pow2(k - 1) else 0);
      assert (t in a) == (t in b);
      RawBelowInjective(a, b, k - 1);
      forall s | Position(s) == k - 1 ensures s == t {
        PositionInjective(s, t);
      }
    }
  }

  /** The raw value determines the status: the report's number names
      exactly the stages the send went through. */
  lemma RawValueInjective(a: Status, b: Status)
    requires RawValue(a) == RawValue(b)
    ensures a == b
  {
    RawBelowInjective(a, b, 18);
  }

  /** `justStart` has raw value 0. */
  lemma JustStartRaw()
    ensures RawValue(JustStart) == 0
  {
    assert forall k :: 0 <= k <= 18 ==> RawBelow(JustStart, k) == 0 by {
      forall k | 0 <= k <= 18 ensures RawBelow(JustStart, k) == 0 { JustStartBelow(k); }
    }
  }

  lemma {:induction false} JustStartBelow(k: nat)
    requires k <= 18
    ensures RawBelow(JustStart, k) == 0
    decreases k
  {
    if k > 0 { JustStartBelow(k - 1); }
  }
}
