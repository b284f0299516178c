/**
 * The `MsgRequestData` message of the consuming module: its constructor, the
 * `sdk.Msg` routing constants, the stateless `ValidateBasic` check and
 * `GetSigners` (x/consuming/types/msgs.go).
 */
module Msgs {
  import opened Wrappers

  /** Go's `uint64`. */
  newtype U64 = x: int | 0 <= x < 0x1_0000_0000_0000_0000

  /** Go's `byte`. */
  newtype Byte = x: int | 0 <= x < 0x100

  /** `sdk.AccAddress`: the raw bytes of an account address. */
  type AccAddress = seq<Byte>

  /** One entry of `sdk.Coins`; the amount is an arbitrary-precision `sdk.Int`. */
  datatype Coin = Coin(denom: string, amount: int)

  type Coins = seq<Coin>

  /**
   * The Bech32 address codec of the host SDK, which this module calls but does
   * not define. `decode` is `sdk.AccAddressFromBech32` (the address, or the
   * error it reports); `encode` is `sdk.AccAddress.String`. Both are left
   * uninterpreted: every statement below holds for whatever codec is passed.
   */
  datatype AddressCodec = AddressCodec(
    decode: string -> Result<AccAddress, string>,
    encode: AccAddress -> string)

  /** The request message as it travels in a transaction. */
  datatype MsgRequestData = MsgRequestData(
    oracleScriptID: U64,
    sourceChannel: string,
    calldata: seq<Byte>,
    askCount: U64,
    minCount: U64,
    feeLimit: Coins,
    prepareGas: U64,
    executeGas: U64,
    sender: string)

  /** Which of the checks of `ValidateBasic` rejected a message. */
  datatype ValidationError =
    | SenderDecodeFailed(reason: string)  // the decoder's own error, returned unchanged
    | EmptySender
    | InvalidOracleScript
    | InvalidAskCount
    | QuorumInconsistent

  /** Builds a message from its parts, storing the sender in its string form. */
  function NewMsgRequestData(
    codec: AddressCodec,
    oracleScriptID: U64,
    sourceChannel: string,
    calldata: seq<Byte>,
    askCount: U64,
    minCount: U64,
    feeLimit: Coins,
    prepareGas: U64,
    executeGas: U64,
    sender: AccAddress): (msg: MsgRequestData)
    ensures msg.oracleScriptID == oracleScriptID && msg.sourceChannel == sourceChannel
    ensures msg.calldata == calldata && msg.askCount == askCount && msg.minCount == minCount
    ensures msg.feeLimit == feeLimit && msg.prepareGas == prepareGas && msg.executeGas == executeGas
    ensures msg.sender == codec.encode(sender)
  {
    MsgRequestData(oracleScriptID, sourceChannel, calldata, askCount, minCount,
                   feeLimit, prepareGas, executeGas, codec.encode(sender))
  }

  const MsgType: string := "consuming"

  /** `Route`: the module's router key (defined outside this file), whatever the message. */
  function Route(msg: MsgRequestData, routerKey: string): (r: string)
  {
    routerKey
  }

  /** `Type`: the fixed message type, whatever the message. */
  function Type(msg: MsgRequestData): (r: string)
  {
    MsgType
  }

  lemma RouteAndTypeIgnoreMessage(m1: MsgRequestData, m2: MsgRequestData, routerKey: string)
    ensures Route(m1, routerKey) == Route(m2, routerKey) == routerKey
    ensures Type(m1) == Type(m2) == "consuming"
  {
  }

  /** Every condition `ValidateBasic` demands, stated all at once. */
  ghost predicate WellFormed(codec: AddressCodec, msg: MsgRequestData) {
    && codec.decode(msg.sender).Success?
    && |codec.decode(msg.sender).value| > 0
    && msg.oracleScriptID > 0
    && msg.askCount > 0
    && msg.minCount <= msg.askCount
  }

  /**
   * The stateless check run before a message is accepted: the first failing
   * check, taken in the order sender decodes, sender non-empty, script id
   * positive, ask count positive, ask count covers min count, decides the error.
   */
  function ValidateBasic(codec: AddressCodec, msg: MsgRequestData): (r: Result<(), ValidationError>)
    // acceptance, in both directions
    ensures r.Success? <==> WellFormed(codec, msg)
    // 1. an undecodable sender is reported with the decoder's error, whatever else the message holds
    ensures codec.decode(msg.sender).Failure? <==> r.Failure? && r.error.SenderDecodeFailed?
    ensures codec.decode(msg.sender).Failure? ==> r == Failure(SenderDecodeFailed(codec.decode(msg.sender).error))
    // 2. an empty decoded address comes next
    ensures r == Failure(EmptySender) <==> codec.decode(msg.sender) == Success([])
    // 3. then a zero script id
    ensures r == Failure(InvalidOracleScript) <==>
              (codec.decode(msg.sender).Success? && |codec.decode(msg.sender).value| > 0
               && msg.oracleScriptID == 0)
    // 4. then a zero ask count, even when the min count is zero as well
    ensures r == Failure(InvalidAskCount) <==>
              (codec.decode(msg.sender).Success? && |codec.decode(msg.sender).value| > 0
               && msg.oracleScriptID > 0 && msg.askCount == 0)
    // 5. and last an ask count below the min count
    ensures r == Failure(QuorumInconsistent) <==>
              (codec.decode(msg.sender).Success? && |codec.decode(msg.sender).value| > 0
               && msg.oracleScriptID > 0 && msg.askCount > 0 && msg.askCount < msg.minCount)
  {
    match codec.decode(msg.sender)
    case Failure(err) => Failure(SenderDecodeFailed(err))
    case Success(sender) =>
      if |sender| == 0 then Failure(EmptySender)
      else if msg.oracleScriptID <= 0 then Failure(InvalidOracleScript)
      else if msg.askCount <= 0 then Failure(InvalidAskCount)
      else if msg.askCount < msg.minCount then Failure(QuorumInconsistent)
      else Success(())
  }

  /*
   * An independent reading of `ValidateBasic`: a list of checks, each judged on
   * its own, and an evaluator that reports the first one violated.
   */

  datatype Check = SenderDecodes | SenderNonEmpty | ScriptIdPositive | AskCountPositive | QuorumConsistent

  /** The order in which `ValidateBasic` runs its checks. */
  const CheckOrder: seq<Check> :=
    [SenderDecodes, SenderNonEmpty, ScriptIdPositive, AskCountPositive, QuorumConsistent]

  /** The error check `c` raises on `msg`, judged in isolation, or None when it holds. */
  function Violation(codec: AddressCodec, msg: MsgRequestData, c: Check): (v: Option<ValidationError>) {
    match c
    case SenderDecodes =>
      if codec.decode(msg.sender).Failure? then Some(SenderDecodeFailed(codec.decode(msg.sender).error)) else None
    case SenderNonEmpty =>
      if codec.decode(msg.sender) == Success([]) then Some(EmptySender) else None
    case ScriptIdPositive =>
      if msg.oracleScriptID == 0 then Some(InvalidOracleScript) else None
    case AskCountPositive =>
      if msg.askCount == 0 then Some(InvalidAskCount) else None
    case QuorumConsistent =>
      if msg.askCount < msg.minCount then Some(QuorumInconsistent) else None
  }

  /** The violation of the earliest check in `checks` that does not hold. */
  function FirstFailure(codec: AddressCodec, msg: MsgRequestData, checks: seq<Check>): (v: Option<ValidationError>)
    decreases |checks|
  {
    if |checks| == 0 then None
    else if Violation(codec, msg, checks[0]).Some? then Violation(codec, msg, checks[0])
    else FirstFailure(codec, msg, checks[1..])
  }

  /** No failure is reported exactly when every check holds. */
  lemma {:induction false} FirstFailureNoneIffAllHold(codec: AddressCodec, msg: MsgRequestData, checks: seq<Check>)
    ensures FirstFailure(codec, msg, checks).None? <==>
              forall i :: 0 <= i < |checks| ==> Violation(codec, msg, checks[i]).None?
    decreases |checks|
  {
    if |checks| > 0 {
      FirstFailureNoneIffAllHold(codec, msg, checks[1..]);
      assert forall i :: 1 <= i < |checks| ==> checks[i] == checks[1..][i - 1];
    }
  }

  /** The failure reported is that of a violated check all of whose predecessors hold. */
  lemma {:induction false} FirstFailureIsEarliest(codec: AddressCodec, msg: MsgRequestData, checks: seq<Check>)
    requires FirstFailure(codec, msg, checks).Some?
    ensures exists k :: 0 <= k < |checks| && Violation(codec, msg, checks[k]) == FirstFailure(codec, msg, checks)
                        && forall j :: 0 <= j < k ==> Violation(codec, msg, checks[j]).None?
    decreases |checks|
  {
    if Violation(codec, msg, checks[0]).Some? {
      assert Violation(codec, msg, checks[0]) == FirstFailure(codec, msg, checks);
    } else {
      FirstFailureIsEarliest(codec, msg, checks[1..]);
      var k :| 0 <= k < |checks[1..]| && Violation(codec, msg, checks[1..][k]) == FirstFailure(codec, msg, checks[1..])
               && forall j :: 0 <= j < k ==> Violation(codec, msg, checks[1..][j]).None?;
      assert forall j :: 1 <= j < k + 1 ==> checks[j] == checks[1..][j - 1];
      assert Violation(codec, msg, checks[k + 1]) == FirstFailure(codec, msg, checks);
    }
  }

  /** `ValidateBasic` is the first-failure evaluation of `CheckOrder`. */
  lemma ValidateBasicFollowsCheckOrder(codec: AddressCodec, msg: MsgRequestData)
    ensures ValidateBasic(codec, msg) ==
              match FirstFailure(codec, msg, CheckOrder)
              case None => Success(())
              case Some(e) => Failure(e)
  {
  }

  /** `ValidateBasic` accepts exactly when every check of `CheckOrder` holds on its own. */
  lemma ValidateBasicAcceptsIffAllChecksHold(codec: AddressCodec, msg: MsgRequestData)
    ensures ValidateBasic(codec, msg).Success? <==>
              forall i :: 0 <= i < |CheckOrder| ==> Violation(codec, msg, CheckOrder[i]).None?
  {
    ValidateBasicFollowsCheckOrder(codec, msg);
    FirstFailureNoneIffAllHold(codec, msg, CheckOrder);
  }

  /** A rejection names the earliest check of `CheckOrder` that fails on its own. */
  lemma ValidateBasicFailsAtEarliestCheck(codec: AddressCodec, msg: MsgRequestData)
    requires ValidateBasic(codec, msg).Failure?
    ensures exists k :: 0 <= k < |CheckOrder|
                        && Violation(codec, msg, CheckOrder[k]) == Some(ValidateBasic(codec, msg).error)
                        && forall j :: 0 <= j < k ==> Violation(codec, msg, CheckOrder[j]).None?
  {
    ValidateBasicFollowsCheckOrder(codec, msg);
    FirstFailureIsEarliest(codec, msg, CheckOrder);
  }

  /** Calldata, channel, fee limit and both gas budgets never affect validation. */
  lemma ValidationIgnoresPayload(codec: AddressCodec, m1: MsgRequestData, m2: MsgRequestData)
    requires m1.sender == m2.sender && m1.oracleScriptID == m2.oracleScriptID
    requires m1.askCount == m2.askCount && m1.minCount == m2.minCount
    ensures ValidateBasic(codec, m1) == ValidateBasic(codec, m2)
  {
  }

  /** A quorum equal to the ask count, and a zero min count, are both accepted. */
  lemma QuorumBoundaryAccepted(codec: AddressCodec, msg: MsgRequestData)
    requires codec.decode(msg.sender).Success? && |codec.decode(msg.sender).value| > 0
    requires msg.oracleScriptID > 0 && msg.askCount > 0
    requires msg.minCount == msg.askCount || msg.minCount == 0
    ensures ValidateBasic(codec, msg) == Success(())
  {
  }

  /**
   * `GetSigners`: the decoded sender as the only signer. The source panics when the
   * sender does not decode; here that is the precondition.
   */
  function GetSigners(codec: AddressCodec, msg: MsgRequestData): (signers: seq<AccAddress>)
    requires codec.decode(msg.sender).Success?
    ensures |signers| == 1
    ensures codec.decode(msg.sender) == Success(signers[0])
  {
    [codec.decode(msg.sender).value]
  }

  /** A message `ValidateBasic` accepted always has its one, non-empty signer. */
  lemma AcceptedMessageHasSigner(codec: AddressCodec, msg: MsgRequestData)
    requires ValidateBasic(codec, msg).Success?
    ensures codec.decode(msg.sender).Success?
    ensures GetSigners(codec, msg) == [codec.decode(msg.sender).value]
    ensures |GetSigners(codec, msg)[0]| > 0
  {
  }

  /**
   * A message built by `NewMsgRequestData` from a non-empty address whose encoded
   * form decodes back to it is accepted exactly when its numeric fields are, and
   * then signed by that address. The decoding is assumed for this one sender only:
   * the SDK's decoder also refuses addresses that fail its format rules (length
   * limits, a configured address verifier), so no such property holds of every
   * address.
   */
  lemma ConstructedMessageValidation(
    codec: AddressCodec, oracleScriptID: U64, sourceChannel: string, calldata: seq<Byte>,
    askCount: U64, minCount: U64, feeLimit: Coins, prepareGas: U64, executeGas: U64,
    sender: AccAddress)
    requires codec.decode(codec.encode(sender)) == Success(sender) && |sender| > 0
    ensures var msg := NewMsgRequestData(codec, oracleScriptID, sourceChannel, calldata,
                                         askCount, minCount, feeLimit, prepareGas, executeGas, sender);
            && (ValidateBasic(codec, msg).Success? <==>
                 oracleScriptID > 0 && askCount > 0 && minCount <= askCount)
            && (ValidateBasic(codec, msg).Success? ==> GetSigners(codec, msg) == [sender])
  {
  }
}
