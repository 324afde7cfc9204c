# Lending dashboard core, modelled in Dafny

This project models the integer logic of a small lending dashboard. Users
deposit a collateral token (CLT), borrow a borrow token (BFI) against it, repay,
and withdraw. Amounts are integers in the tokens' smallest units (wei).

The model covers:

- **Display formatting** (`Formatting`): the 2-decimal formatters, by floor and
  by half-up rounding. The proofs go through a reference decimal parser
  (`DecimalText.ParseUnits`), so they can state round trips.
- **Input sanitising** (`Validation`): `sanitizeDecimalInput`, covering trim,
  the character filter, the split at the dot, the cut of the fraction and the
  rebuild.
- **The risk calculator** (`Lend`): LTC ratio, health flag, and borrowable
  headroom.
- **The withdraw guards** (`WithdrawGuards`).
- **The panels' gates and Max suggestions** (`BorrowPanel`, `CollateralPanel`,
  `RepayPanel`).
- **The event relevance filters** (`SyncEvents`): they decide whether a batch
  of logs triggers a refetch.
- **The action handlers**, in two places:
  - the lending hook's actions (`BorrowActions.Actions`);
  - the dashboard component's handlers (`MainHandlers.Handlers`).

  Both are classes that append to an effect log (chain switches, writes, receipt
  waits, toasts, refetches). Each method is proved to append exactly the trace
  described by a pure function. The ordering guarantees are proved about those
  functions.

The wallet and the node are an abstract `Ledger.Oracle`, fixed before a handler
runs:
- a write is either accepted with a hash or refused with an error;
- a hash's receipt is mined (succeeded or reverted), missing, or fails to load;
- the application's error parser maps an error to a text.

Parsed amounts (`parseEther`, `parseUnits`) are parameters of type `nat`/`int`.

## Model

| member | source | states |
|---|---|---|
| Formatting.FormatUnits2dp | src/lib/formatting.ts:5-13 | the text reads back (at 2 places) as the half-up rounded hundredths `(v + cent/2) / cent`, value defaulting to 0 and decimals to 18 |
| Formatting.FormatUnits2dpFloor | src/lib/formatting.ts:15-23 | the text reads back as the floored hundredths `v / cent` |
| Formatting.MissingInputsDefault | src/lib/formatting.ts:6-8 | a missing value formats like 0, missing decimals like 18, and decimals of 2 or less give a cent of 1 |
| Formatting.FloorBrackets | src/lib/formatting.ts:18-19 | floored hundredths never overstate: `cents*cent <= v < (cents+1)*cent` |
| Formatting.RoundedIsFloorOrNext | src/lib/formatting.ts:9 | rounded hundredths are the floored ones or one more, one more exactly when the remainder is at least half a cent |
| Formatting.TwoDecimalPlaces | src/lib/formatting.ts:10-12 | both formatters always produce digits, a dot and exactly two digits |
| Formatting.FloorRoundTrip | src/lib/formatting.ts:15-23 | read back at its own `d >= 2` decimals, the floor text is `v / cent * cent`: at most `v`, and equal to `v` iff `v` is a whole number of cents |
| Formatting.RoundedRoundTrip | src/lib/formatting.ts:5-13 | read back at its own `d >= 2` decimals, the rounded text is within half a cent of `v` |
| Formatting.FormatBorrowable | src/lib/formatting.ts:25-30 | "0" exactly when the value is below 10^12 wei; otherwise the `formatEther2dpFloor` text |
| Formatting.FormatEther2dpFloor | src/lib/formatting.ts:52-60 | as written: the text reads back as `v / 10^15` hundredths |
| Formatting.FormatEther2dp | src/lib/formatting.ts:32-50 | as written: within 10^12 wei of a whole unit the text reads back as the snapped whole amount; otherwise as `(v + 10^15/2) / 10^15` hundredths |
| Formatting.SnapIsClose | src/lib/formatting.ts:38-42 | snapping moves the amount by at most 10^12 wei |
| Formatting.EtherFloorOverstates | src/lib/formatting.ts:54-55 | as written, the floor text read at 18 decimals is ten times the floored amount, exceeding `v` from one cent up (1 ether reads as 10) |
| Formatting.EtherRoundedOverstates | src/lib/formatting.ts:45-49 | as written, away from whole units the rounded text also reads back as more than `v` |
| Formatting.FormatEther2dpFloorCorrected | src/lib/formatting.ts:52-60 | with a 10^16 wei cent, the text reads back as `v` floored to the cent, within one cent below `v` |
| Formatting.FormatEther2dpCorrected | src/lib/formatting.ts:32-50 | with a 10^16 wei cent, the text reads back within half a cent of `v` (or as the snapped whole) |
| Validation.CompareTrichotomy | src/lib/validation.ts:1-3 | `gt(a,b) == lt(b,a)`, and exactly one of `lt`, `gt` and `isZero(a-b)` holds |
| Validation.TrimStart | src/lib/validation.ts:6 | drops exactly the leading JavaScript whitespace |
| Validation.TrimEnd | src/lib/validation.ts:6 | drops exactly the trailing JavaScript whitespace |
| Validation.TrimEmpty | src/lib/validation.ts:6-7 | trimming gives "" iff every character is whitespace |
| Validation.KeepDecimalChars | src/lib/validation.ts:8 | the filter keeps only digits and dots and never lengthens the text; text made only of digits and dots comes through whole, and the length is kept only for such text |
| Validation.KeepDecimalCharsAppend | src/lib/validation.ts:8 | the filter acts character by character: filtering `a + b` is filtering `a`, then `b` |
| Validation.KeepDecimalCharsOne | src/lib/validation.ts:8 | a single character survives the filter iff it is a digit or a dot |
| Validation.SanitizeShape | src/lib/validation.ts:5-12 | the result is "" iff the input is all whitespace; otherwise it is digits, optionally followed by one dot and 1 to `max(0,maxDecimals)` digits |
| Validation.SanitizeTruncates | src/lib/validation.ts:9-11 | for digits `I`, a dot, digits `F` and an optional tail starting with a dot, the result is `I` (or "0" when `I` is empty) followed by "." and the first `min(|F|, max(0,maxDecimals))` digits of `F`, the dot dropped when no digit is kept |
| Validation.CutNotRounded | src/lib/validation.ts:10 | "1.239" at 2 places becomes "1.23": the fraction is cut, not rounded |
| Validation.LeadingDotGetsZero | src/lib/validation.ts:9 | ".5" becomes "0.5" |
| Validation.TrailingDotDropped | src/lib/validation.ts:10-11 | "5." becomes "5" |
| Validation.SanitizeIdempotent | src/lib/validation.ts:5-12 | sanitising a sanitised text changes nothing |
| Lend.LtcRatio | src/hooks/useLend.ts:10-20 | 0 without collateral; otherwise the floor of `loan*decimals/collateral` (scale defaulting to 10000) |
| Lend.IsHealthy | src/hooks/useLend.ts:22-25 | healthy iff `loan*decimals < threshold*collateral`, and with no collateral iff `0 < threshold` (threshold defaulting to 7000) |
| Lend.MaxLoan | src/hooks/useLend.ts:34 | `floor(collateral*threshold/decimals) - 1`, bracketed exactly, and never below -1 |
| Lend.Borrowable | src/hooks/useLend.ts:27-39 | never more than the pool (missing pool counts as 0); 0 without collateral or when `maxLoan <= loan`; otherwise the smaller of `maxLoan - loan` and the pool |
| Lend.BorrowableSound | src/hooks/useLend.ts:33-38 | every loan from the current one up to current plus borrowable is healthy |
| Lend.BorrowableAntitoneInLoan | src/hooks/useLend.ts:34-38 | a larger loan never leaves more to borrow |
| Lend.HealthyMonotoneInCollateral | src/hooks/useLend.ts:10-25 | from positive collateral, adding collateral never makes a healthy position unhealthy (from zero collateral it can: see ZeroCollateralHealthy) |
| Lend.ZeroCollateralHealthy | src/hooks/useLend.ts:10-30 | with zero or missing collateral the ratio is 0, so any loan counts as healthy, while borrowable is 0 |
| Lend.MaxLoanTight | src/hooks/useLend.ts:33-34 | the position is healthy at `maxLoan` and unhealthy at `maxLoan + 2`; at `maxLoan + 1` it is still healthy when `collateral*threshold` is not a multiple of the scale |
| Lend.MaxLoanOneShortExample | src/hooks/useLend.ts:34-38 | collateral 3 at 7000/10000: borrowable is 1 although a loan of 2 is healthy |
| Lend.DefaultsExample | src/hooks/useLend.ts:22-39 | with the default scale and threshold, 10000 collateral allows up to 6999 and 7000 is unhealthy |
| WithdrawGuards.WithdrawDisabled | src/hooks/useWithdrawGuards.ts:9-19 | enabled iff `0 < amount < collateral` and `loan*10000 < 7000*(collateral - amount)` |
| WithdrawGuards.WithdrawWarning | src/hooks/useWithdrawGuards.ts:21-30 | the warning is "" or the health-breach text; non-empty iff `0 < amount <= collateral` and the withdrawal is disabled |
| WithdrawGuards.GuardIsHealthAfterWithdraw | src/hooks/useWithdrawGuards.ts:14-17 | the guard allows exactly the withdrawals that leave collateral and a healthy position under threshold 7000 and scale 10000 |
| WithdrawGuards.WarningMeansDisabled | src/hooks/useWithdrawGuards.ts:24-28 | a warning implies disabled; amount 0 or above the collateral is disabled with no warning; withdrawing everything warns |
| WithdrawGuards.NoLoanAnyPartialWithdraw | src/hooks/useWithdrawGuards.ts:14-18 | without a loan any withdrawal that leaves something is allowed and silent |
| BorrowPanel.Headroom | src/features/Borrow.tsx:32-33 | the headroom is a multiple of the cent, at most `borrowable`, and short of it by less than a cent |
| BorrowPanel.BorrowDisabled | src/features/Borrow.tsx:30-36 | disabled iff the amount is 0 or above the headroom; so enabled only for `0 < amount <= borrowable`, and for whole-cent amounts enabled exactly then |
| BorrowPanel.BorrowNotice | src/features/Borrow.tsx:44-52 | "exceeds borrowable" iff the amount is nonzero and above the headroom; the simulation error text iff nonzero, within headroom and an error exists |
| BorrowPanel.BorrowMaxText | src/features/Borrow.tsx:27 | the Max text reads back as the floored hundredths of `borrowable` |
| BorrowPanel.MaxNeverRejected | src/features/Borrow.tsx:27-34 | for `d >= 2` the Max text parses to exactly the headroom; the button is enabled for it whenever the headroom is positive, and no notice shows |
| CollateralPanel.AddMaxText | src/features/Collateral.tsx:37-40 | the add Max reads back as the floored hundredths of the CLT balance (0 when unknown) |
| CollateralPanel.AddMaxWithinBalance | src/features/Collateral.tsx:37-40 | read at the token's decimals, the add Max is at most the balance and short of it by less than a cent |
| CollateralPanel.AddButtonRole | src/features/Collateral.tsx:49 | the button adds iff the allowance suffices, otherwise it approves |
| CollateralPanel.AddButtonDisabled | src/features/Collateral.tsx:48 | enabled when no flag is set; disabled while the selected action loads |
| CollateralPanel.AddButtonFace | src/features/Collateral.tsx:51-53 | "Add" only with allowance, "Approve" only without; while the selected action is not loading the label is exactly "Add" with allowance and "Approve" without |
| CollateralPanel.AddButtonConsistent | src/features/Collateral.tsx:48-53 | a spinner shows exactly while the selected action loads, and then the button is disabled; the other action's flag is irrelevant |
| CollateralPanel.MinNewCollateral | src/features/Collateral.tsx:69-71 | at least 1, keeps `loan*10000 < 7000*m`, and is the least such value |
| CollateralPanel.MaxWithdrawAmount | src/features/Collateral.tsx:64-73 | 0, or below the collateral and leaving exactly the minimum |
| CollateralPanel.MaxWithdrawIsGuardLimit | src/features/Collateral.tsx:69-73 | the guard allows an amount iff it is positive and at most the unformatted Max |
| CollateralPanel.WithdrawMaxText | src/features/Collateral.tsx:63-75 | the text is "0" iff the unformatted Max is 0, and at any decimals it reads back at 2 places as the floored hundredths of the unformatted Max |
| CollateralPanel.WithdrawMaxAccepted | src/features/Collateral.tsx:63-75 | at 18 decimals the Max text reads back as at most the Max, and when positive the guard allows it |
| RepayPanel.RepayDisabled | src/features/Repay.tsx:32 | disabled while loading; in the approve state exactly while loading; in the repay state while loading or on error |
| RepayPanel.RepayFace | src/features/Repay.tsx:35 | a spinner iff loading, otherwise "Approve" or "Repay" by state |
| RepayPanel.SpinnerDisables | src/features/Repay.tsx:30-36 | a spinner always comes with a disabled button |
| RepayPanel.RepayMaxText | src/features/Repay.tsx:24-27 | the Max reads back as the floored hundredths of the loan, at 18 decimals by default |
| RepayPanel.RepayMaxWithinLoan | src/features/Repay.tsx:24-27 | read at the token's decimals, the repay Max is at most the loan and short of it by less than a cent |
| SyncEvents.Involves | src/hooks/useSyncEvents.ts:12 | holds iff the address is present, non-empty, and exactly the connected account or the lending contract |
| SyncEvents.TransferBatchRefetches | src/hooks/useSyncEvents.ts:13-15 | a Transfer batch refetches iff some log's sender or receiver is involved |
| SyncEvents.ToLower | src/hooks/useSyncEvents.ts:36 | lower-cases exactly the ASCII capitals, keeping the length |
| SyncEvents.ApprovalsRefetch | src/hooks/useSyncEvents.ts:36-39 | an Approval batch refetches iff some log has the lending contract as spender and the account as owner, ignoring letter case |
| SyncEvents.ApprovalBatchRefetches | src/hooks/useSyncEvents.ts:36 | a missing batch counts as empty and never refetches |
| SyncEvents.WatchEnabled | src/hooks/useSyncEvents.ts:17 | the watchers run iff an account is connected |
| SyncEvents.EmptyBatchesIgnored | src/hooks/useSyncEvents.ts:36-39 | empty or missing batches never refetch |
| SyncEvents.TransferBatchConcat | src/hooks/useSyncEvents.ts:13 | two batches together refetch iff either does |
| SyncEvents.CaseSensitivityContrast | src/hooks/useSyncEvents.ts:24-36 | the same address in other letter case is not involved in a Transfer, but it matches in an Approval |
| SyncEvents.NoAccountOnlyContract | src/hooks/useSyncEvents.ts:12 | with no account connected only the lending contract's address is involved |
| BorrowActions.SepoliaTrace | src/hooks/useBorrowActions.ts:40-44 | a switch to chain 11155111 is requested iff the chain id is set and differs; a failed switch is ignored |
| BorrowActions.ConfirmFailure | src/hooks/useBorrowActions.ts:52-56 | nothing is thrown iff the write was accepted and its receipt reports success |
| BorrowActions.WriteTrace | src/hooks/useBorrowActions.ts:52-61 | one write of the request and one toast; refetch and success toast iff the receipt succeeded, otherwise a single error toast |
| BorrowActions.GuardedGuarantees | src/hooks/useBorrowActions.ts:46-62 | a rejected input writes nothing and shows one error toast with its text; an accepted one writes once after the optional switch; refetch iff accepted and confirmed |
| BorrowActions.SwitchPrefix | src/hooks/useBorrowActions.ts:48 | a leading chain switch changes no count and no ordering guarantee |
| BorrowActions.BorrowTrace | src/hooks/useBorrowActions.ts:46-62 | the chain switch, if any, comes first; amount <= 0 or a simulation error: no write, one error toast with that text; otherwise exactly one write, of the simulated request (the plain `borrow(amt)` when nothing was simulated); refetch iff accepted and confirmed |
| BorrowActions.RepayTrace | src/hooks/useBorrowActions.ts:64-79 | the chain switch, if any, comes first; no write iff amount <= 0, then one error toast; otherwise exactly one write, of the simulated request or `repay(amt)`; refetch iff accepted and confirmed |
| BorrowActions.RepayExactRequest | src/hooks/useBorrowActions.ts:86-88 | the simulated request keeps its contract and function but its args become exactly `[weiAmount]` |
| BorrowActions.RepayExactTrace | src/hooks/useBorrowActions.ts:81-96 | every write carries exactly `[weiAmount]`; amount <= 0 writes nothing |
| BorrowActions.ApproveRepayTrace | src/hooks/useBorrowActions.ts:98-111 | every write is the borrow token's `approve(lending contract, weiAmount)`; no repay is sent |
| BorrowActions.WithdrawTrace | src/hooks/useBorrowActions.ts:113-128 | the chain switch, if any, comes first; amount <= 0 writes nothing and shows one error toast; otherwise exactly one write, of the simulated request or `withdrawCollateral(amt)`; refetch iff accepted and confirmed |
| BorrowActions.Actions.EnsureSepolia | src/hooks/useBorrowActions.ts:40-44 | appends exactly `SepoliaTrace(chainId)` |
| BorrowActions.Actions.WriteAndConfirm | src/hooks/useBorrowActions.ts:52-56 | appends the write and the receipt wait, and returns `ConfirmFailure` |
| BorrowActions.Actions.Borrow | src/hooks/useBorrowActions.ts:46-62 | appends exactly `BorrowTrace` |
| BorrowActions.Actions.Repay | src/hooks/useBorrowActions.ts:64-79 | appends exactly `RepayTrace` |
| BorrowActions.Actions.RepayExact | src/hooks/useBorrowActions.ts:81-96 | appends exactly `RepayExactTrace` |
| BorrowActions.Actions.ApproveRepay | src/hooks/useBorrowActions.ts:98-111 | appends exactly `ApproveRepayTrace` |
| BorrowActions.Actions.Withdraw | src/hooks/useBorrowActions.ts:113-128 | appends exactly `WithdrawTrace` |
| MainHandlers.MessageOr | src/components/Main.tsx:126 | the thrown message when non-empty, else the fallback |
| MainHandlers.AddCltShape | src/components/Main.tsx:86-128 | at most one toast, as the last effect, never empty; a success toast only right after a write accepted with a non-empty hash. Case by case: amount <= 0 shows only "Enter a valid CLT amount"; a refused approval shows one error toast with its message or "Collateral add failed"; an empty approval hash shows nothing; past the approval, an uncovered amount shows "Insufficient CLT", a refused add shows its message or the fallback, an empty add hash shows "Add Collateral failed!", and a non-empty one "Collateral added successfully" |
| MainHandlers.WithdrawCltShape | src/components/Main.tsx:130-153 | the same shape; no collateral shows only "No collateral to withdraw", amount <= 0 only "Enter a valid withdraw amount"; a refused write shows one error toast with its message or "Withdraw failed", an empty hash nothing, a non-empty hash "Withdraw successful" |
| MainHandlers.BorrowBfiShape | src/components/Main.tsx:155-178 | the same shape; missing collateral or CLT shows only "Add collateral and hold CLT before borrowing", amount <= 0 only "Enter a valid borrow amount"; a refused write shows one error toast with its message or "Borrow failed", an empty hash nothing, a non-empty hash "Borrow successful" |
| MainHandlers.RepayBfiShape | src/components/Main.tsx:180-217 | the same shape; no loan shows only "No outstanding loan to repay", amount <= 0 only "Enter a valid repay amount"; a refused approval or repay shows one error toast with its message or "Repay failed"; an empty hash shows nothing; a non-empty repay hash shows "Repay successful", after the approval write when one was needed |
| MainHandlers.AddCltApprovesExactlyWhenNeeded | src/components/Main.tsx:111-116 | the first write approves exactly the amount iff it exceeds the allowance (missing counts as 0) |
| MainHandlers.AddOnlyAfterApproval | src/components/Main.tsx:93-120 | collateral is added only when the CLT balance covers the amount and, when an approval was needed, only after it returned a non-empty hash |
| MainHandlers.RepayApprovesExactlyWhenNeeded | src/components/Main.tsx:200-212 | the borrow token is approved for exactly the amount iff it exceeds the allowance; the repay follows a needed approval only after a non-empty hash |
| MainHandlers.AddCltWritesIff | src/components/Main.tsx:87-123 | no write iff the amount is not positive, or no approval is needed and the balance does not cover the amount |
| MainHandlers.WithdrawCltWritesIff | src/components/Main.tsx:130-139 | no write iff collateral is missing or zero, or the amount is not positive; the collateral check comes first |
| MainHandlers.BorrowBfiWritesIff | src/components/Main.tsx:155-164 | no write iff collateral or CLT is missing or zero, or the amount is not positive |
| MainHandlers.RepayBfiWritesIff | src/components/Main.tsx:180-189 | no write iff the loan is missing or zero, or the amount is not positive; the loan check comes first |
| MainHandlers.EmptyApprovalHashIsSilent | src/components/Main.tsx:118-120 | an approval answered with an empty hash ends the handler with no further write and no toast |
| MainHandlers.SuccessWithoutReceipt | src/components/Main.tsx:166-173 | these handlers report success on a hash alone: with every transaction reverted, "Borrow successful" still shows here, while the hook's borrow never shows it |
| MainHandlers.Handlers.AddCLT | src/components/Main.tsx:86-128 | appends exactly `AddCltTrace` |
| MainHandlers.Handlers.WithdrawCLT | src/components/Main.tsx:130-153 | appends exactly `WithdrawCltTrace` |
| MainHandlers.Handlers.BorrowBFI | src/components/Main.tsx:155-178 | appends exactly `BorrowBfiTrace` |
| MainHandlers.Handlers.RepayBFI | src/components/Main.tsx:180-217 | appends exactly `RepayBfiTrace` |

## Left out

- `parseEther` and `parseUnits` are library calls. Parsed amounts are
  parameters, and a malformed input is not modelled. In src/components/Main.tsx
  such an input throws before the handlers' `try`; in the lending hook
  (src/hooks/useBorrowActions.ts:47-49) `parseEther` runs inside the `try`,
  after the chain switch, so there it would end in the parsed-error toast. `DecimalText.ParseUnits` is a reference parser, used only to
  state round trips of texts that have exactly two fraction digits.
- `formatWei` (src/lib/formatting.ts:3) is a direct call to the library's
  `formatEther` and is not modelled.
- `Number(...)` conversions (src/hooks/useLend.ts:16,23 and
  src/lib/formatting.ts:11,21,47,57) are treated as exact integers.
- The charts and utilisation memos (src/components/Main.tsx:219-234) use
  floating point and are not modelled.
- The toast timer and toast state (src/components/Main.tsx:16-21) are not
  modelled. Each toast is one entry in the effect log.
- `refetchAll` is assumed never to reject.
- The chain switch is one logged effect whose failure is ignored, as the source
  does.
- `getParsedError` is not part of this model. It is the oracle's `parseError`.
- The wallet and the node are a fixed function of the request and the hash. A
  wallet that answers the same request differently on a second call is not
  modelled.
- React hooks, subscriptions (`useWatchContractEvent`), simulations
  (`useSimulateContract`) and contract reads (src/hooks/useContractsData.ts) are
  not modelled. Their results are parameters: `Option<Request>` for a
  simulation, `Option<string>` for its error.
- The inline regular-expression sanitisers (src/features/Collateral.tsx:33,59)
  are not modelled, because they depend on JavaScript regular-expression
  semantics.
- SyncEvents.ToLower: `toLowerCase` is modelled on ASCII letters only. Addresses
  are hexadecimal, so nothing else occurs.
- Lend.Borrowable: requires a ratio scale other than 0. Dividing a bigint by 0
  throws in the source.
- CollateralPanel.WithdrawMaxAccepted: stated for 18-decimal collateral only,
  because the withdraw guard parses with `parseEther`.
- BorrowPanel.MaxNeverRejected: reads the Max text back at `bfiDecimals`. The
  amount the borrow action sends is parsed with `parseEther`, at 18 decimals
  (src/hooks/useBorrowActions.ts:23,49), so the lemma speaks for that action
  only when the borrow token has 18 decimals.
- Formatting.FloorRoundTrip: stated for `d >= 2` only. Below that the cent is 1
  and the text is read at 2 places.
- The event watchers' `refetchAll` call and the `isRepayMining` receipt hook
  (src/hooks/useBorrowActions.ts:36-38, which watches no hash) are not modelled
  beyond the refetch decision.

## Findings

| source | as written | input that shows it | evidently intended | confidence | as-written member | corrected member |
|---|---|---|---|---|---|---|
| src/lib/formatting.ts:54-55 | `WEI_PER_CENT` is `10_000_000_000_000_00`, which is 10^15, so `formatEther2dpFloor` counts thousandths and prints them as hundredths | 1 ether (10^18 wei) renders "10.00" | a cent of 10^16 wei, as the comment says: 1 ether renders "1.00" | high (not executed) | Formatting.EtherFloorOverstates | Formatting.FormatEther2dpFloorCorrected |
| src/lib/formatting.ts:35,45 | the same 10^15 literal in `formatEther2dp` scales every amount that is not near a whole unit by ten | 1.5 ether renders "15.00" | a cent of 10^16 wei: 1.5 ether renders "1.50" | high (not executed) | Formatting.EtherRoundedOverstates | Formatting.FormatEther2dpCorrected |
