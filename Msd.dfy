/**
 * The transport policy egress rule of the microsegmentation data model: a
 * mutable record with fluent setters, getters and a null-safe structural
 * equality.
 */
module Msd {
  import opened Wrappers
  import Rdl

  /** The classes the rule refers to; only their equality matters here. */
  type Timestamp(==)
  type TransportPolicyEntitySelector(==)
  type TransportPolicyPeer(==)

  /** The fields of a rule; a reference field that is null is `None`. */
  datatype RuleValue = RuleValue(
    id: Rdl.int64, lastModified: Option<Timestamp>,
    entitySelector: Option<TransportPolicyEntitySelector>, to: Option<TransportPolicyPeer>)

  /** The argument `equals` is given: null, an object of another class, or a rule. */
  datatype Another = Null | OtherClass | Rule(rule: TransportPolicyEgressRule)

  /**
   * Whether two nullable references are equal as `equals` compares them: both
   * null counts as equal, exactly one null as different, and otherwise the
   * field's own equality decides.
   */
  predicate NullSafeEqual<T(==)>(a: Option<T>, b: Option<T>) {
    if a.None? then b.None? else b.Some? && a.value == b.value
  }

  lemma NullSafeEqualIsEquality<T>(a: Option<T>, b: Option<T>)
    ensures NullSafeEqual(a, b) <==> a == b
  {
  }

  /** The field-by-field comparison `equals` makes of two rules. */
  predicate SameFields(a: RuleValue, b: RuleValue) {
    a.id == b.id && NullSafeEqual(a.lastModified, b.lastModified)
    && NullSafeEqual(a.entitySelector, b.entitySelector) && NullSafeEqual(a.to, b.to)
  }

  /** Two rules compare equal exactly when all four fields agree; so the comparison is an equivalence. */
  lemma SameFieldsIsEquality(a: RuleValue, b: RuleValue)
    ensures SameFields(a, b) <==> a == b
  {
    NullSafeEqualIsEquality(a.lastModified, b.lastModified);
    NullSafeEqualIsEquality(a.entitySelector, b.entitySelector);
    NullSafeEqualIsEquality(a.to, b.to);
  }

  lemma SameFieldsSymmetric(a: RuleValue, b: RuleValue)
    ensures SameFields(a, b) == SameFields(b, a)
  {
    SameFieldsIsEquality(a, b);
    SameFieldsIsEquality(b, a);
  }

  lemma SameFieldsTransitive(a: RuleValue, b: RuleValue, c: RuleValue)
    requires SameFields(a, b) && SameFields(b, c)
    ensures SameFields(a, c)
  {
    SameFieldsIsEquality(a, b);
    SameFieldsIsEquality(b, c);
    SameFieldsIsEquality(a, c);
  }

  class TransportPolicyEgressRule {
    var id: Rdl.int64
    var lastModified: Option<Timestamp>
    var entitySelector: Option<TransportPolicyEntitySelector>
    var to: Option<TransportPolicyPeer>

    function Value(): RuleValue
      reads this
    {
      RuleValue(id, lastModified, entitySelector, to)
    }

    /** A new rule has Java's default fields: id zero and every reference null. */
    constructor ()
      ensures Value() == RuleValue(0, None, None, None)
    {
      id := 0;
      lastModified := None;
      entitySelector := None;
      to := None;
    }

    method SetId(id: Rdl.int64) returns (r: TransportPolicyEgressRule)
      modifies this
      ensures r == this && GetId() == id
      ensures Value() == old(Value()).(id := id)
    {
      this.id := id;
      r := this;
    }

    function GetId(): Rdl.int64
      reads this
    {
      id
    }

    method SetLastModified(lastModified: Option<Timestamp>) returns (r: TransportPolicyEgressRule)
      modifies this
      ensures r == this && GetLastModified() == lastModified
      ensures Value() == old(Value()).(lastModified := lastModified)
    {
      this.lastModified := lastModified;
      r := this;
    }

    function GetLastModified(): Option<Timestamp>
      reads this
    {
      lastModified
    }

    method SetEntitySelector(entitySelector: Option<TransportPolicyEntitySelector>) returns (r: TransportPolicyEgressRule)
      modifies this
      ensures r == this && GetEntitySelector() == entitySelector
      ensures Value() == old(Value()).(entitySelector := entitySelector)
    {
      this.entitySelector := entitySelector;
      r := this;
    }

    function GetEntitySelector(): Option<TransportPolicyEntitySelector>
      reads this
    {
      entitySelector
    }

    method SetTo(to: Option<TransportPolicyPeer>) returns (r: TransportPolicyEgressRule)
      modifies this
      ensures r == this && GetTo() == to
      ensures Value() == old(Value()).(to := to)
    {
      this.to := to;
      r := this;
    }

    function GetTo(): Option<TransportPolicyPeer>
      reads this
    {
      to
    }

    /**
     * `equals`: true for the same object; false for null and for an object of
     * another class; otherwise true exactly when the ids are equal and each
     * reference field is equal or null on both sides.
     */
    method Equals(another: Another) returns (b: bool)
      ensures another.Null? || another.OtherClass? ==> !b
      ensures another == Rule(this) ==> b
      ensures another.Rule? ==> (b <==> Value() == another.rule.Value())
      ensures another.Rule? && another.rule.id != id ==> !b
    {
      if another != Rule(this) {
        if another.Null? || another.OtherClass? {
          return false;
        }
        var a := another.rule;
        if id != a.id {
          return false;
        }
        if !NullSafeEqual(lastModified, a.lastModified) {
          SameFieldsIsEquality(Value(), a.Value());
          return false;
        }
        if !NullSafeEqual(entitySelector, a.entitySelector) {
          SameFieldsIsEquality(Value(), a.Value());
          return false;
        }
        if !NullSafeEqual(to, a.to) {
          SameFieldsIsEquality(Value(), a.Value());
          return false;
        }
        SameFieldsIsEquality(Value(), a.Value());
      }
      return true;
    }
  }
}
