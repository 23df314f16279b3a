/** An UPDATE of static data against the stored subscription as the document has it. */
module Updates {
  import opened Wrappers
  import opened Numerals
  import opened Paths
  import opened Entities
  import opened Rules
  import opened Batch
  import opened Members
  import opened Parser
  import opened Admission
  import opened Answers
  import opened Guarantees
  import opened Resources
  import opened EndToEnd
  import opened Reading

  /** The members of the static data that the document stores for a child, if its first giver is resource i. */
  function StoredMembers(resources: seq<Member>, i: nat, d: string): Option<seq<Member>>
    requires i < |resources|
  {
    var child := ObjectOf(MembersOf(resources[i].value), "imsi-" + d);
    if child.Some? then ObjectOf(child.value, "authSubscriptionStaticData") else None
  }

  /** The six attributes that an UPDATE must leave as they are stored, by their names in the document. */
  predicate SameAsStored(g: StaticData, ss: seq<Member>) {
    && g.encPermanentKey == TextOf(ss, "encPermanentKey")
    && g.algorithmId == TextOf(ss, "algorithmId")
    && g.a4KeyInd == TextOf(ss, "a4KeyInd")
    && g.a4Ind == TextOf(ss, "a4Ind")
    && g.encOpcKey == TextOf(ss, "encOpcKey")
    && g.a4KeyV == TextOf(ss, "a4KeyV")
  }

  lemma StoredOfSubscriber(resources: seq<Member>, decode: Decoder, i: nat, m: string, d: string)
    requires NoSlash(m) && 5 <= |d| <= 15 && AllDigits(d) && IsFirstGiver(resources, i, m, "imsi-" + d)
    requires StoredMembers(resources, i, d).Some?
    ensures BasePath(StaticDataPath(m, d)) in MapOf(resources, decode)
    ensures FindStored(MapOf(resources, decode), StaticDataPath(m, d))
         == Some(StaticOf(StoredMembers(resources, i, d).value))
  {
    PathOfSubscriber(m, d);
    FirstGiverCounts(RelatedState(map[], []), resources, i, m, d, decode);
    SubscriptionParts(MembersOf(Field(MembersOf(resources[i].value), IMSI_PREFIX + d).value));
  }

  /** An UPDATE of static data that the common rules have nothing against, for a subscriber whose first
      resource with that child stores static data, is accepted, unaltered, exactly when its six protected
      attributes are the texts stored there. */
  lemma UpdateAgreesWithDocument(resources: seq<Member>, decode: Decoder, i: nat, c: Change, m: string, d: string)
    requires NoSlash(m) && 5 <= |d| <= 15 && AllDigits(d) && IsFirstGiver(resources, i, m, "imsi-" + d)
    requires StoredMembers(resources, i, d).Some?
    requires c.operation == "UPDATE" && c.resourcePath == StaticDataPath(m, d)
    requires c.authSubscription.staticData.Some?
    requires Presentable(MapOf(resources, decode), c.resourcePath, c.authSubscription)
    ensures var o := Run(MapOf(resources, decode), START, [c]);
      && (o.ret <==> SameAsStored(c.authSubscription.staticData.value, StoredMembers(resources, i, d).value))
      && o.accepted == if o.ret then [c] else []
  {
    PathOfSubscriber(m, d);
    BranchOfPath(c.resourcePath);
    StoredOfSubscriber(resources, decode, i, m, d);
    AnswerToUpdate(MapOf(resources, decode), c);
    StaticAttributes(StoredMembers(resources, i, d).value);
  }

  /** Without such a child an UPDATE is answered with 422. */
  lemma UpdateOfNobody(resources: seq<Member>, decode: Decoder, c: Change, m: string, d: string)
    requires NoSlash(m) && 5 <= |d| <= 15 && AllDigits(d)
    requires forall r | r in resources :: !Gives(r, m, "imsi-" + d)
    requires c.operation == "UPDATE" && c.resourcePath == StaticDataPath(m, d)
    ensures Run(MapOf(resources, decode), START, [c])
         == Outcome(false, 422, [], [Error(UnprocessableEntity, c.resourcePath, "relatedResource")])
  {
    PathOfSubscriber(m, d);
    BranchOfPath(c.resourcePath);
    ResourcesInMap(RelatedState(map[], []), resources, m, d, decode);
    AnswerToOrphanUpdate(MapOf(resources, decode), c);
  }

  /** What gives a subscriber a child, in terms of the document. */
  lemma GivingMeans(r: Member, m: string, z: string)
    ensures Gives(r, m, z) <==>
      && r.name == "/subscribers/" + m + "/authSubscription"
      && Field(MembersOf(r.value), "authSubscriptionStaticData").None? && Field(MembersOf(r.value), z).Some?
  {
  }
}
