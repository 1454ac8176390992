/** The device-specific constraints on one GET request, and what they leave out of a batch, said outright. */
module PolicyRules {
  import opened Basics
  import opened GetBatchPolicy

  /** The devices that have a policy: of Panasonic's distribution boards, B3 and B7 must not be asked for together; of
      Koizumi's two lighting classes, no more than 14 and 9 EPCs at once. */
  lemma PolicyTable(manufacturer: Option<int>, classCode: int)
    ensures var policy := PolicyFor(manufacturer, classCode);
      && (manufacturer == Some(0x00000B) && classCode == 0x0287 ==>
            policy.Some? && policy.value.incompatiblePairs == [{0xB3, 0xB7}] && policy.value.maxBatchSize.None?)
      && (manufacturer == Some(0x0000E8) && classCode == 0x0290 ==>
            policy.Some? && policy.value.incompatiblePairs == [] && policy.value.maxBatchSize == Some(14))
      && (manufacturer == Some(0x0000E8) && classCode == 0x02A3 ==>
            policy.Some? && policy.value.incompatiblePairs == [] && policy.value.maxBatchSize == Some(9))
      && (policy.Some? ==>
            (manufacturer == Some(0x00000B) && classCode == 0x0287)
            || (manufacturer == Some(0x0000E8) && (classCode == 0x0290 || classCode == 0x02A3)))
  {
  }

  /** A class is one with policies exactly if some manufacturer has one for it. */
  lemma ClassHasPolicy(classCode: int)
    ensures HasPolicyForClass(classCode) <==> exists m: int :: PolicyFor(Some(m), classCode).Some?
  {
    if HasPolicyForClass(classCode) {
      assert PolicyFor(Some(if classCode == 0x0287 then 0x00000B else 0x0000E8), classCode).Some?;
    }
  }

  /** A batch fits exactly if it fits the limit known and the policy's. */
  lemma CapacityRule(observed: Option<pos>, policy: Option<Policy>, n: nat)
    ensures (Capacity(observed, policy).Some? ==> n <= Capacity(observed, policy).value) <==>
      (observed.Some? ==> n <= observed.value)
      && (policy.Some? && policy.value.maxBatchSize.Some? ==> n <= policy.value.maxBatchSize.value)
  {
  }

  /** Two EPCs must not be asked for together. */
  predicate Forbidden(policy: Option<Policy>, a: Epc, b: Epc) {
    policy.Some? && a != b
    && exists i :: 0 <= i < |policy.value.incompatiblePairs|
         && a in policy.value.incompatiblePairs[i] && b in policy.value.incompatiblePairs[i]
  }

  lemma CanAddRule(batch: seq<Epc>, epc: Epc, policy: Option<Policy>)
    ensures CanAddToBatch(batch, epc, policy) <==> forall other :: other in batch ==> !Forbidden(policy, epc, other)
  {
    if policy.Some? {
      var pairs := policy.value.incompatiblePairs;
      if i :| 0 <= i < |pairs| && Clashes(pairs[i], batch, epc) {
        var other :| other in batch && other in pairs[i] && other != epc;
        assert Forbidden(policy, epc, other);
      }
      if other :| other in batch && Forbidden(policy, epc, other) {
        var i :| 0 <= i < |pairs| && epc in pairs[i] && other in pairs[i];
        assert Clashes(pairs[i], batch, epc);
      }
    }
  }

  /** The batch planned for a request: it fits the limit known and the policy's, no two of its EPCs are forbidden
      together, and an EPC is left for later only if the batch is full for one of them or the EPC is forbidden beside
      one in it. */
  lemma PlanRule(epcs: seq<Epc>, manufacturer: Option<int>, classCode: int, observed: Option<pos>, e: Epc)
    ensures var p := FirstBatch(epcs, manufacturer, classCode, observed);
      var policy := PolicyFor(manufacturer, classCode);
      && (observed.Some? ==> |p.0| <= observed.value)
      && (policy.Some? && policy.value.maxBatchSize.Some? ==> |p.0| <= policy.value.maxBatchSize.value)
      && (forall i, j :: 0 <= i < |p.0| && 0 <= j < |p.0| ==> !Forbidden(policy, p.0[i], p.0[j]))
      && (e in p.1 ==>
            (observed.Some? && |p.0| >= observed.value)
            || (policy.Some? && policy.value.maxBatchSize.Some? && |p.0| >= policy.value.maxBatchSize.value)
            || exists other :: other in p.0 && Forbidden(policy, e, other))
  {
    var policy := PolicyFor(manufacturer, classCode);
    var capacity := Capacity(observed, policy);
    var p := FirstBatch(epcs, manufacturer, classCode, observed);
    SplitIsLegal(epcs, capacity, policy);
    CapacityRule(observed, policy, |p.0|);
    if e in p.1 {
      SplitIsMaximal(epcs, capacity, policy, e);
      CanAddRule(p.0, e, policy);
    }
  }
}
