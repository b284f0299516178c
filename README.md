# MsgRequestData validation (band-consumer `consuming` module)

This project models the request message of the `consuming` module of
band-consumer, a chain that submits oracle data requests to BandChain over
IBC. A `MsgRequestData` names an oracle script, its calldata, the number of
validators to ask (`AskCount`), the number whose reports suffice (`MinCount`),
a fee limit, the prepare and execute gas budgets, the IBC source channel and
the sender's Bech32 address.

The model (`msgs.dfy`, module `Msgs`; `wrappers.dfy` holds `Option` and
`Result`) covers:

- `NewMsgRequestData`, which copies its arguments into the message and stores the
  sender as its Bech32 string;
- `Route` and `Type`, the routing constants of the `sdk.Msg` interface;
- `ValidateBasic`, the stateless check. It runs five checks in order and the first
  failure wins: the sender decodes, the decoded address is non-empty, the
  oracle script id is positive, the ask count is positive, and the ask count
  is at least the min count;
- `GetSigners`, which returns the decoded sender and panics when it does not
  decode. In the model the panic is its precondition, and
  `AcceptedMessageHasSigner` proves that every message `ValidateBasic` accepts
  meets it.

The SDK's Bech32 codec (`sdk.AccAddressFromBech32`, `sdk.AccAddress.String`) is
foreign code. It is passed in as an `AddressCodec` value whose two functions are
left uninterpreted, so every result holds for any codec. Only
`ConstructedMessageValidation` assumes something about the codec, and only for
the one sender it is given: that address, once encoded, decodes back to itself.
No such property holds of every address. The SDK's decoder refuses the empty
string, and it also refuses addresses that fail its format rules (length limits,
a configured address verifier).

As an independent reading of the check, `CheckOrder` lists the five checks.
`Violation` judges each check on its own, and `FirstFailure` reports the earliest
violated one. `ValidateBasicFollowsCheckOrder` proves that `ValidateBasic` is this
evaluation.

Fixed-width integers (`uint64`, `byte`) are newtypes over their ranges. On an
unsigned id, `OracleScriptID <= 0` means "is zero", and the model keeps the
comparison as the source writes it.

## Model

| member | source | states |
|---|---|---|
| `Msgs.NewMsgRequestData` | x/consuming/types/msgs.go:9-31 | every argument lands unchanged in the like-named field; the sender is stored as its encoded string, `codec.encode(sender)` |
| `Msgs.RouteAndTypeIgnoreMessage` | x/consuming/types/msgs.go:33-37 | `Route` is the module's router key and `Type` is "consuming", whatever the message |
| `Msgs.ValidateBasic` | x/consuming/types/msgs.go:40-65 | accepts exactly when the sender decodes to a non-empty address, the script id is positive, the ask count is positive and the min count does not exceed it; each error is named by which check failed, with the stated precedence: the decoder's own error first (whatever the other fields hold), then the empty address, then the zero script id, then the zero ask count (even when the min count is zero), then the quorum mismatch |
| `Msgs.ValidationIgnoresPayload` | x/consuming/types/msgs.go:40-65 | two messages that agree on sender, script id, ask count and min count validate alike: calldata, channel, fee limit and gas budgets never matter |
| `Msgs.QuorumBoundaryAccepted` | x/consuming/types/msgs.go:57-64 | with the earlier checks passed, a min count equal to the ask count and a min count of zero are both accepted |
| `Msgs.FirstFailureNoneIffAllHold` | x/consuming/types/msgs.go:40-65 | the ordered checks report no failure exactly when every check holds |
| `Msgs.FirstFailureIsEarliest` | x/consuming/types/msgs.go:40-65 | for any list of checks, a failure reported by `FirstFailure` is the violation of some check all of whose predecessors hold |
| `Msgs.ValidateBasicFollowsCheckOrder` | x/consuming/types/msgs.go:40-65 | `ValidateBasic` equals the first-failure evaluation of the five checks in source order |
| `Msgs.ValidateBasicAcceptsIffAllChecksHold` | x/consuming/types/msgs.go:40-65 | a message is accepted exactly when each of the five checks, judged on its own, holds |
| `Msgs.ValidateBasicFailsAtEarliestCheck` | x/consuming/types/msgs.go:40-63 | a rejection carries the error of some check of the source order that fails, and every earlier check holds |
| `Msgs.GetSigners` | x/consuming/types/msgs.go:67-74 | for a sender that decodes, the signers are exactly one address, the decoded sender |
| `Msgs.AcceptedMessageHasSigner` | x/consuming/types/msgs.go:68-73 | a message `ValidateBasic` accepts meets `GetSigners`' no-panic condition and has exactly one, non-empty signer: the decoded sender |
| `Msgs.ConstructedMessageValidation` | x/consuming/client/cli/tx.go:110-127 | a message built from a non-empty address whose encoded form decodes back to it is accepted exactly when the script id and ask count are positive and the min count does not exceed the ask count; it is then signed by that address |

## Left out

- Bech32 decoding and encoding (`sdk.AccAddressFromBech32`, `sdk.AccAddress.String`): SDK code, so they are modelled as the uninterpreted functions of `AddressCodec`.
- `Route`: `RouterKey` is defined in x/consuming/types/keys.go, which is not part of this model, so `Route` takes the key as a parameter.
- `GetSignBytes` (x/consuming/types/msgs.go:77-80): JSON marshalling and key sorting by the SDK's codec, which is a foreign library.
- The wording of the `sdkerrors.Wrapf` messages: the model records only which check failed. The message for the ask-count check calls `AskCount` the "sufficient validator count". That is cosmetic.
- The `request` command in x/consuming/client/cli/tx.go is left out. It parses arguments and flags, parses coins and broadcasts the transaction, which is I/O and library plumbing. The model covers only its construct-then-validate step, in `ConstructedMessageValidation`.
- The gRPC queries in x/consuming/keeper/grpc_query.go forward to `GetResult` and `GetLatestRequestID`. Their store logic is not part of this model.
- Request-id allocation, the request ledger, result-store write-once rules and timeouts: none of this code is among the modelled files.
- Validity of `sdk.Coins` (sorted, positive denominations): `ValidateBasic` does not check the fee limit, so coins are plain values here.
