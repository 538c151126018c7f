/**
 * The delete-confirmation state of one row of the microsegmentation rule
 * table in the Athenz UI: which rule the row offers to delete, whether the
 * confirmation dialog is open, and what the row asks the backend to delete.
 */
module Microsegmentation {
  import opened Wrappers
  import opened Text

  /** The fields of the rule a row shows that the delete flow reads. */
  datatype RuleDetails = RuleDetails(
    destinationService: string, sourceService: string,
    destinationPort: string, sourcePort: string, assertionIdx: int)

  /** How the two delete requests, joined, came back. */
  datatype Outcome = Ok | Err(statusCode: int)

  /** A request the row sends to the backend. */
  datatype Request =
    | DeleteAssertion(domain: string, policyName: string, assertionId: int)
    | DeleteRole(domain: string, roleName: string, auditRef: string)

  /** What the row renders: the rule's line, then the dialog while it is open. */
  datatype RenderedRow =
    | RuleLine(key: string, clickName: string, clickId: int, clickPort: string)
    | DeleteDialog(name: string, key: string, message: string, errorMessage: Option<string>)

  /** The state the component keeps, with the number of times it reported success to its parent. */
  datatype RowState = RowState(
    showDelete: bool, deleteName: string, assertionId: int, port: string,
    errorMessage: Option<string>, successReports: nat)

  const Inbound := "inbound"
  const DeleteAuditRef := "deleted using Athenz UI"
  const NotFound := 404

  // ---------------------------------------------------------------------------
  // Names of what a delete removes
  // ---------------------------------------------------------------------------

  /** The policy that holds a rule: `acl.<service>.<category>`. */
  function PolicyName(deleteName: string, category: string): (r: string)
    ensures |r| == |deleteName| + |category| + 5
    ensures r[..4] == "acl." && r[4..4 + |deleteName|] == deleteName
    ensures r[4 + |deleteName|] == '.' && r[5 + |deleteName|..] == category
  {
    "acl." + deleteName + "." + category
  }

  /** The role that the rule's port refers to: the policy name, `-`, the port. */
  function RoleName(policyName: string, port: string): (r: string)
    ensures |r| == |policyName| + 1 + |port|
    ensures r[..|policyName|] == policyName && r[|policyName|] == '-' && r[|policyName| + 1..] == port
  {
    policyName + "-" + port
  }

  /** Rows of one category that delete different services name different policies. */
  lemma PolicyNameInjective(a: string, b: string, category: string)
    requires PolicyName(a, category) == PolicyName(b, category)
    ensures a == b
  {
    var p := PolicyName(a, category);
    assert |a| == |b|;
    assert a == p[4..4 + |a|] == b;
  }

  /** Different ports of one policy name different roles. */
  lemma RoleNameInjective(policyName: string, p: string, q: string)
    requires RoleName(policyName, p) == RoleName(policyName, q)
    ensures p == q
  {
    var r := RoleName(policyName, p);
    assert p == r[|policyName| + 1..] == q;
  }

  // ---------------------------------------------------------------------------
  // The transitions, on values
  // ---------------------------------------------------------------------------

  /** The service that a row of this category offers to delete. */
  function RowService(category: string, details: RuleDetails): string {
    if category == Inbound then details.destinationService else details.sourceService
  }

  /** The port a row of this category shows first and passes to the delete click. */
  function RowPort(category: string, details: RuleDetails): string {
    if category == Inbound then details.destinationPort else details.sourcePort
  }

  function Initial(category: string, details: RuleDetails): (s: RowState)
    ensures !s.showDelete && s.port == "" && s.errorMessage == None && s.successReports == 0
    ensures s.assertionId == details.assertionIdx
    ensures s.deleteName == if category == Inbound then details.destinationService else details.sourceService
  {
    RowState(false, RowService(category, details), details.assertionIdx, "", None, 0)
  }

  function ClickDelete(s: RowState, name: string, id: int, port: string): RowState {
    s.(showDelete := true, deleteName := name, assertionId := id, port := port)
  }

  function Cancel(s: RowState): RowState {
    s.(showDelete := false, deleteName := "", errorMessage := None)
  }

  /** The state once the joined delete settles; `message` is the text the error helper makes of a failure. */
  function Settled(s: RowState, outcome: Outcome, message: string): RowState {
    if outcome.Ok? || outcome.statusCode == NotFound then
      s.(showDelete := false, successReports := s.successReports + 1)
    else
      s.(errorMessage := Some(message))
  }

  /** The two requests a submit sends, in the state it is made in. */
  function DeleteRequests(s: RowState, category: string, domain: string): (r: seq<Request>)
    ensures |r| == 2 && r[0].DeleteAssertion? && r[1].DeleteRole?
    ensures r[0].domain == domain == r[1].domain && r[1].auditRef == DeleteAuditRef
    ensures r[0].assertionId == s.assertionId
    ensures r[0].policyName == "acl." + s.deleteName + "." + category
    ensures r[1].roleName == r[0].policyName + "-" + s.port
  {
    var policy := PolicyName(s.deleteName, category);
    [DeleteAssertion(domain, policy, s.assertionId), DeleteRole(domain, RoleName(policy, s.port), DeleteAuditRef)]
  }

  /** A click records exactly the rule it was given and opens the dialog; nothing else changes. */
  lemma ClickDeleteRecords(s: RowState, name: string, id: int, port: string)
    ensures var t := ClickDelete(s, name, id, port);
      t.showDelete && t.deleteName == name && t.assertionId == id && t.port == port
      && t.errorMessage == s.errorMessage && t.successReports == s.successReports
  {
  }

  /** Cancelling closes the dialog, forgets the name and the error, and keeps the assertion and the port. */
  lemma CancelForgets(s: RowState)
    ensures var t := Cancel(s);
      !t.showDelete && t.deleteName == "" && t.errorMessage == None
      && t.assertionId == s.assertionId && t.port == s.port && t.successReports == s.successReports
  {
  }

  /** Success closes the dialog and reports success once; nothing else changes. */
  lemma SuccessCloses(s: RowState, message: string)
    ensures var t := Settled(s, Ok, message);
      !t.showDelete && t.successReports == s.successReports + 1
      && t.(showDelete := s.showDelete, successReports := s.successReports) == s
  {
  }

  /** A rejection with status 404 settles exactly as a success does. */
  lemma NotFoundIsSuccess(s: RowState, m1: string, m2: string)
    ensures Settled(s, Err(NotFound), m1) == Settled(s, Ok, m2)
  {
  }

  /** Any other rejection keeps the dialog as it was, shows the error, and reports nothing. */
  lemma OtherErrorShown(s: RowState, code: int, message: string)
    requires code != NotFound
    ensures var t := Settled(s, Err(code), message);
      t.showDelete == s.showDelete && t.errorMessage == Some(message)
      && t.successReports == s.successReports && t.(errorMessage := s.errorMessage) == s
  {
  }

  /**
   * After a cancel, clicking the row's delete icon passes on the emptied name,
   * so a confirmed delete then names the policy `acl..<category>`.
   */
  lemma DeleteAfterCancel(s: RowState, category: string, details: RuleDetails, domain: string)
    ensures var t := ClickDelete(Cancel(s), Cancel(s).deleteName, Cancel(s).assertionId, RowPort(category, details));
      t.showDelete && t.deleteName == ""
      && DeleteRequests(t, category, domain)[0].policyName == "acl.." + category
  {
  }

  /** A delete clicked from a fresh row names the policy of the service the row shows, and that port's role. */
  lemma FreshRowDeletes(category: string, details: RuleDetails, domain: string)
    ensures var t := ClickDelete(Initial(category, details), RowService(category, details),
                                 details.assertionIdx, RowPort(category, details));
      var r := DeleteRequests(t, category, domain);
      r[0].policyName == PolicyName(if category == Inbound then details.destinationService else details.sourceService, category)
      && r[1].roleName == RoleName(r[0].policyName, if category == Inbound then details.destinationPort else details.sourcePort)
      && r[0].assertionId == details.assertionIdx
  {
  }

  // ---------------------------------------------------------------------------
  // The component
  // ---------------------------------------------------------------------------

  class RuleRow {
    const category: string
    const details: RuleDetails
    const idx: int
    var showDelete: bool
    var deleteName: string
    var assertionId: int
    var port: string
    var errorMessage: Option<string>
    /** How many times the row has called its parent's success callback. */
    var successReports: nat

    function State(): RowState
      reads this
    {
      RowState(showDelete, deleteName, assertionId, port, errorMessage, successReports)
    }

    constructor (category: string, details: RuleDetails, idx: int)
      ensures this.category == category && this.details == details && this.idx == idx
      ensures State() == Initial(category, details)
    {
      this.category := category;
      this.details := details;
      this.idx := idx;
      deleteName := if category == Inbound then details.destinationService else details.sourceService;
      showDelete := false;
      assertionId := details.assertionIdx;
      port := "";
      errorMessage := None;
      successReports := 0;
    }

    method OnClickDelete(name: string, id: int, port: string)
      modifies this
      ensures State() == ClickDelete(old(State()), name, id, port)
    {
      showDelete := true;
      deleteName := name;
      assertionId := id;
      this.port := port;
    }

    /**
     * Sends the two delete requests for the rule the row holds, then applies
     * how they settled. The requests are returned rather than sent.
     */
    method OnSubmitDelete(domain: string, outcome: Outcome, message: string) returns (sent: seq<Request>)
      modifies this
      ensures sent == DeleteRequests(old(State()), category, domain)
      ensures State() == Settled(old(State()), outcome, message)
    {
      var deletePolicyName := "acl." + deleteName + "." + category;
      sent := [DeleteAssertion(domain, deletePolicyName, assertionId),
               DeleteRole(domain, deletePolicyName + "-" + port, DeleteAuditRef)];
      if outcome.Ok? {
        showDelete := false;
        successReports := successReports + 1;
      } else if outcome.statusCode == NotFound {
        showDelete := false;
        successReports := successReports + 1;
      } else {
        errorMessage := Some(message);
      }
    }

    method OnClickDeleteCancel()
      modifies this
      ensures State() == Cancel(old(State()))
    {
      showDelete := false;
      deleteName := "";
      errorMessage := None;
    }

    /**
     * The row's key: it starts with the category, then holds the service the
     * row offers to delete and the port its delete icon passes, and ends with
     * the row's index in decimal.
     */
    function Key(): (r: string)
      reads this
      ensures var service := RowService(category, details);
        var port := RowPort(category, details);
        var n := |category| + |service| + |port|;
        |r| == n + |IntToString(idx)|
        && r[..|category|] == category && r[|category|..|category| + |service|] == service
        && r[|category| + |service|..n] == port && r[n..] == IntToString(idx)
    {
      if category == Inbound then
        category + details.destinationService + details.destinationPort + IntToString(idx)
      else
        category + details.sourceService + details.sourcePort + IntToString(idx)
    }

    /** Two rows showing the same rule in the same category have the same key only when they have the same index. */
    static lemma KeyIndexInjective(a: RuleRow, b: RuleRow)
      requires a.category == b.category && a.details == b.details && a.Key() == b.Key()
      ensures a.idx == b.idx
    {
      var n := |a.category| + |RowService(a.category, a.details)| + |RowPort(a.category, a.details)|;
      assert IntToString(a.idx) == a.Key()[n..] == IntToString(b.idx);
      ParseIntToString(a.idx);
      ParseIntToString(b.idx);
    }

    /** What a click on the row's delete icon does: it passes the held name and assertion and the row's port. */
    method ClickDeleteIcon()
      modifies this
      ensures State() == ClickDelete(old(State()), old(deleteName), old(assertionId), RowPort(category, details))
    {
      if category == Inbound {
        OnClickDelete(deleteName, assertionId, details.destinationPort);
      } else {
        OnClickDelete(deleteName, assertionId, details.sourcePort);
      }
    }

    /** The rows rendered: the rule's line, and the delete dialog only while it is open. */
    method Render() returns (rows: seq<RenderedRow>)
      ensures |rows| == if showDelete then 2 else 1
      ensures rows[0] == RuleLine(Key(), deleteName, assertionId, RowPort(category, details))
      ensures showDelete ==> rows[1] == DeleteDialog(details.sourceService, details.sourceService + "-delete",
        "Are you sure you want to permanently delete the " + category + " rule ", errorMessage)
    {
      var key: string;
      var clickPort: string;
      if category == Inbound {
        key := category + details.destinationService + details.destinationPort + IntToString(idx);
        clickPort := details.destinationPort;
      } else {
        key := category + details.sourceService + details.sourcePort + IntToString(idx);
        clickPort := details.sourcePort;
      }
      rows := [];
      rows := rows + [RuleLine(key, deleteName, assertionId, clickPort)];
      if showDelete {
        rows := rows + [DeleteDialog(details.sourceService, details.sourceService + "-delete",
          "Are you sure you want to permanently delete the " + category + " rule ", errorMessage)];
      }
    }
  }
}
