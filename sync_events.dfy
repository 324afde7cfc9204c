/**
 * The event relevance filters of src/hooks/useSyncEvents.ts.  Three watchers
 * (Transfer on the collateral token, Transfer and Approval on the borrow
 * token) receive batches of logs and call `refetchAll` when a batch concerns
 * the connected account or the lending contract.  The subscription wiring is
 * not modelled; the decision whether a batch triggers a refetch is.
 */
module SyncEvents {
  import opened Wrappers

  /**
   * `involves(addr)`: the address is present, non-empty, and equal to the
   * connected account or to the lending contract's address, compared exactly
   * (letter case matters).
   */
  function Involves(addr: Option<string>, connectedAccount: Option<string>, borrowFi: string): (r: bool)
    ensures r <==> addr.Some? && addr.value != ""
                   && (connectedAccount == Some(addr.value) || borrowFi == addr.value)
  {
    match addr
    case None => false
    case Some(a) => a != "" && ((connectedAccount.Some? && connectedAccount.value == a) || borrowFi == a)
  }

  /** The arguments of a Transfer log that the filter reads; either may be missing. */
  datatype TransferLog = TransferLog(from: Option<string>, to: Option<string>)

  predicate TransferHit(l: TransferLog, connectedAccount: Option<string>, borrowFi: string) {
    Involves(l.from, connectedAccount, borrowFi) || Involves(l.to, connectedAccount, borrowFi)
  }

  /** `logs.some(l => involves(from) || involves(to))`: a Transfer batch warrants a refetch. */
  function TransferBatchRefetches(logs: seq<TransferLog>, connectedAccount: Option<string>, borrowFi: string): (r: bool)
    ensures r <==> exists i :: 0 <= i < |logs| && TransferHit(logs[i], connectedAccount, borrowFi)
  {
    if logs == [] then false
    else if TransferHit(logs[0], connectedAccount, borrowFi) then true
    else
      var rest := TransferBatchRefetches(logs[1..], connectedAccount, borrowFi);
      assert forall i :: 1 <= i < |logs| ==> logs[i] == logs[1..][i - 1];
      rest
  }

  /** `toLowerCase` on the ASCII letters that occur in hexadecimal addresses. */
  function ToLower(s: string): (r: string)
    ensures |r| == |s|
    ensures forall i :: 0 <= i < |s| ==>
      r[i] == if 'A' <= s[i] <= 'Z' then (s[i] as int + 32) as char else s[i]
  {
    if s == [] then []
    else
      var c := s[0];
      [if 'A' <= c <= 'Z' then (c as int + 32) as char else c] + ToLower(s[1..])
  }

  /** The arguments of an Approval log that the filter reads; either may be missing. */
  datatype ApprovalLog = ApprovalLog(owner: Option<string>, spender: Option<string>)

  /**
   * One Approval log matches when its spender is the lending contract and its
   * owner the connected account (or "" when none is connected), both compared
   * ignoring letter case; a missing argument never matches.
   */
  predicate ApprovalHit(l: ApprovalLog, connectedAccount: Option<string>, borrowFi: string) {
    l.spender.Some? && ToLower(l.spender.value) == ToLower(borrowFi)
      && l.owner.Some? && ToLower(l.owner.value) == ToLower(connectedAccount.GetOr(""))
  }

  function ApprovalsRefetch(logs: seq<ApprovalLog>, connectedAccount: Option<string>, borrowFi: string): (r: bool)
    ensures r <==> exists i :: 0 <= i < |logs| && ApprovalHit(logs[i], connectedAccount, borrowFi)
  {
    if logs == [] then false
    else if ApprovalHit(logs[0], connectedAccount, borrowFi) then true
    else
      var rest := ApprovalsRefetch(logs[1..], connectedAccount, borrowFi);
      assert forall i :: 1 <= i < |logs| ==> logs[i] == logs[1..][i - 1];
      rest
  }

  /** `(logs ?? []).some(...)`: an Approval batch, possibly missing, warrants a refetch. */
  function ApprovalBatchRefetches(logs: Option<seq<ApprovalLog>>, connectedAccount: Option<string>,
                                  borrowFi: string): (r: bool)
    ensures r ==> logs.Some? && |logs.value| > 0
    ensures r <==> exists i :: 0 <= i < |logs.GetOr([])| && ApprovalHit(logs.GetOr([])[i], connectedAccount, borrowFi)
  {
    ApprovalsRefetch(logs.GetOr([]), connectedAccount, borrowFi)
  }

  /** `enabled: Boolean(connectedAccount)`: all three watchers run only with an account connected. */
  function WatchEnabled(connectedAccount: Option<string>): (r: bool)
    ensures r <==> connectedAccount.Some? && |connectedAccount.value| > 0
  {
    match connectedAccount
    case None => false
    case Some(a) => a != ""
  }

  // ---------------------------------------------------------------------------
  // Properties

  /** An empty or missing batch never triggers a refetch. */
  lemma EmptyBatchesIgnored(connectedAccount: Option<string>, borrowFi: string)
    ensures !TransferBatchRefetches([], connectedAccount, borrowFi)
    ensures !ApprovalBatchRefetches(None, connectedAccount, borrowFi)
    ensures !ApprovalBatchRefetches(Some([]), connectedAccount, borrowFi)
  {
  }

  /** Two batches taken together warrant a refetch exactly when one of them does. */
  lemma {:induction false} TransferBatchConcat(a: seq<TransferLog>, b: seq<TransferLog>,
                                               connectedAccount: Option<string>, borrowFi: string)
    ensures TransferBatchRefetches(a + b, connectedAccount, borrowFi)
         == (TransferBatchRefetches(a, connectedAccount, borrowFi) || TransferBatchRefetches(b, connectedAccount, borrowFi))
  {
    if a != [] {
      assert (a + b)[1..] == a[1..] + b;
      TransferBatchConcat(a[1..], b, connectedAccount, borrowFi);
    } else {
      assert a + b == b;
    }
  }

  /**
   * Transfers compare addresses exactly, approvals ignore letter case: the same
   * account written with upper-case letters is not involved in a Transfer, yet
   * its Approval to the lending contract matches.
   */
  lemma CaseSensitivityContrast()
    ensures !Involves(Some("0xAB"), Some("0xab"), "0xcd")
    ensures ApprovalHit(ApprovalLog(Some("0xAB"), Some("0xCD")), Some("0xab"), "0xcd")
  {
    TransferCaseExact();
    ApprovalCaseFolded();
  }

  lemma TransferCaseExact()
    ensures !Involves(Some("0xAB"), Some("0xab"), "0xcd")
  {
    assert "0xAB" != "0xab" by {
      assert "0xAB"[2] != "0xab"[2];
    }
    assert "0xAB" != "0xcd" by {
      assert "0xAB"[2] != "0xcd"[2];
    }
  }

  lemma ApprovalCaseFolded()
    ensures ApprovalHit(ApprovalLog(Some("0xAB"), Some("0xCD")), Some("0xab"), "0xcd")
  {
    assert ToLower("0xAB") == "0xab";
    assert ToLower("0xab") == "0xab";
    assert ToLower("0xCD") == "0xcd";
    assert ToLower("0xcd") == "0xcd";
  }

  /** With no account connected only transfers to or from the lending contract count. */
  lemma NoAccountOnlyContract(addr: string, borrowFi: string)
    ensures Involves(Some(addr), None, borrowFi) <==> addr != "" && addr == borrowFi
    ensures !Involves(None, None, borrowFi)
  {
  }
}
