/** The answer to a change, from the text of its path: the patterns of `ValidationData.hpp` written out as
    splits, and what each branch of the loop makes of the paths that fit it. */
module Answers {
  import opened Wrappers
  import opened Numerals
  import opened Lists
  import opened Paths
  import opened Entities
  import opened Rules
  import opened Batch
  import opened Acceptance
  import opened Migration
  import opened Admission

  // ---------- the patterns, written out ----------

  /** imsi- and five to fifteen digits. */
  ghost predicate IsIdentifier(z: string) {
    exists d: string :: z == "imsi-" + d && 5 <= |d| <= 15 && forall i | 0 <= i < |d| :: '0' <= d[i] <= '9'
  }

  ghost predicate ListPath(s: string) {
    exists m: string :: s == "/subscribers/" + m + "/authSubscription"
  }

  ghost predicate ChildOf(s: string, m: string, z: string) {
    '/' !in z && s == "/subscribers/" + m + "/authSubscription/" + z
  }

  ghost predicate ChildPath(s: string) {
    exists m, z :: ChildOf(s, m, z)
  }

  ghost predicate StaticPath(s: string) {
    exists m: string, n: string :: s == "/subscribers/" + m + "/authSubscription/" + n + "/authSubscriptionStaticData"
  }

  ghost predicate ImsiOf(s: string, m: string, z: string) {
    IsIdentifier(z) && s == "/subscribers/" + m + "/authSubscription/" + z
  }

  ghost predicate ImsiAndChildOf(s: string, m: string, z: string, t: string) {
    IsIdentifier(z) && '/' !in t && s == "/subscribers/" + m + "/authSubscription/" + z + "/" + t
  }

  ghost predicate ImsiPath(s: string) {
    (exists m, z :: ImsiOf(s, m, z)) || (exists m, z, t :: ImsiAndChildOf(s, m, z, t))
  }

  ghost predicate EndsDynamic(s: string) {
    exists p: string :: s == p + "authSubscriptionDynamicData"
  }

  // ---------- they are the predicates of the model ----------

  lemma Identifier(z: string)
    ensures IsIdentifier(z) <==> IsImsiSegment(z)
    ensures IsIdentifier(z) ==> '/' !in z
  {
    if IsImsiSegment(z) { assert z == "imsi-" + z[5..]; }
    if IsIdentifier(z) {
      var d :| z == "imsi-" + d && 5 <= |d| <= 15 && forall i | 0 <= i < |d| :: '0' <= d[i] <= '9';
      ImsiSegment(d);
    }
  }

  lemma Under(m: string, z: string)
    ensures "/subscribers/" + m + "/authSubscription/" + z == ("/subscribers/" + m + "/authSubscription") + "/" + z
  {
    assert "/authSubscription/" == "/authSubscription" + "/";
    Regroup("/subscribers/" + m, "/authSubscription", "/");
  }

  lemma ListMeans(s: string)
    ensures IsAuthSubscriptionUri(s) <==> ListPath(s)
  {
    AuthSubscriptionPattern(s);
  }

  lemma ChildMeans(s: string)
    ensures IsPrivIdUri(s) <==> ChildPath(s)
  {
    PrivIdPattern(s);
    if IsPrivIdUri(s) {
      var m, z :| NoSlash(z) && s == SUBSCRIBERS + m + AUTH_SUBSCRIPTION + "/" + z;
      Under(m, z);
      assert ChildOf(s, m, z);
    }
    if ChildPath(s) {
      var m, z :| ChildOf(s, m, z);
      Under(m, z);
      assert NoSlash(z) && s == SUBSCRIBERS + m + AUTH_SUBSCRIPTION + "/" + z;
    }
  }

  lemma StaticMeans(s: string)
    ensures IsStaticDataUri(s) <==> StaticPath(s)
  {
    StaticDataPattern(s);
  }

  lemma SubscriberOf(s: string)
    requires IsAuthSubscriptionUri(s)
    ensures exists m :: s == SUBSCRIBERS + m + AUTH_SUBSCRIPTION
  {
    AuthSubscriptionPattern(s);
  }

  lemma FirstAlternative(s: string)
    ensures ImsiEndsPath(s) <==> exists m, z :: ImsiOf(s, m, z)
  {
    if ImsiEndsPath(s) {
      SubscriberOf(BasePath(s));
      var m :| BasePath(s) == SUBSCRIBERS + m + AUTH_SUBSCRIPTION;
      JoinAtLastSlash(s);
      Under(m, LastSegment(s));
      Identifier(LastSegment(s));
      assert ImsiOf(s, m, LastSegment(s));
    }
    forall m, z | ImsiOf(s, m, z) ensures ImsiEndsPath(s) {
      Identifier(z);
      Under(m, z);
      SplitAtLastSlash("/subscribers/" + m + "/authSubscription", z);
      AuthSubscriptionPattern(SUBSCRIBERS + m + AUTH_SUBSCRIPTION);
    }
  }

  lemma SecondAlternative(s: string)
    ensures ImsiBeforeLast(s) <==> exists m, z, t :: ImsiAndChildOf(s, m, z, t)
  {
    if ImsiBeforeLast(s) {
      FirstAlternative(BasePath(s));
      var m, z :| ImsiOf(BasePath(s), m, z);
      JoinAtLastSlash(s);
      assert ImsiAndChildOf(s, m, z, LastSegment(s));
    }
    forall m, z, t | ImsiAndChildOf(s, m, z, t) ensures ImsiBeforeLast(s) {
      var base := "/subscribers/" + m + "/authSubscription/" + z;
      SplitAtLastSlash(base, t);
      assert ImsiOf(base, m, z);
      FirstAlternative(base);
    }
  }

  lemma ImsiMeans(s: string)
    ensures IsImsiUri(s) <==> ImsiPath(s)
  {
    FirstAlternative(s);
    SecondAlternative(s);
  }

  lemma DynamicMeans(s: string)
    ensures EndsWith(s, DYNAMIC_DATA) <==> EndsDynamic(s)
  {
    if EndsWith(s, DYNAMIC_DATA) {
      var p := s[..|s| - |DYNAMIC_DATA|];
      assert s == p + "authSubscriptionDynamicData";
    }
    forall p: string | s == p + "authSubscriptionDynamicData" ensures EndsWith(s, DYNAMIC_DATA) {
      assert s[|s| - |DYNAMIC_DATA|..] == "authSubscriptionDynamicData";
    }
  }

  /** Which branch of the loop a path falls into. */
  lemma BranchOfPath(s: string)
    ensures Classify(s) == SubscriptionList <==> ListPath(s)
    ensures Classify(s) == ImsiData <==> !ListPath(s) && (StaticPath(s) || ChildPath(s)) && ImsiPath(s)
    ensures Classify(s) == BadImsi <==> !ListPath(s) && (StaticPath(s) || ChildPath(s)) && !ImsiPath(s)
    ensures Classify(s) == DynamicPath <==>
      !ListPath(s) && !StaticPath(s) && !ChildPath(s) && EndsDynamic(s)
    ensures Classify(s) == Unknown <==> !ListPath(s) && !StaticPath(s) && !ChildPath(s) && !EndsDynamic(s)
  {
    ListMeans(s);
    ChildMeans(s);
    StaticMeans(s);
    ImsiMeans(s);
    DynamicMeans(s);
  }

  // ---------- the answers ----------

  /** The whole list: only a DELETE is passed on, and nothing is ever wrong. */
  lemma AnswerOnList(related: Related, o: Outcome, c: Change)
    requires ListPath(c.resourcePath)
    ensures Step(related, o, c)
         == Outcome(o.ret, o.code, if c.operation == "DELETE" then o.accepted + [c] else o.accepted, o.errors)
  {
    BranchOfPath(c.resourcePath);
  }

  /** A child or the static data without an IMSI: rejected, whatever the operation. */
  lemma AnswerWithoutImsi(related: Related, o: Outcome, c: Change)
    requires !ListPath(c.resourcePath) && (StaticPath(c.resourcePath) || ChildPath(c.resourcePath))
    requires !ImsiPath(c.resourcePath)
    ensures Step(related, o, c)
         == Outcome(false, if o.code < 409 then 409 else o.code, o.accepted,
                    o.errors + [Error(ConstraintViolation, c.resourcePath, "imsi")])
  {
    BranchOfPath(c.resourcePath);
  }

  /** Dynamic data: rejected, whatever the operation. */
  lemma AnswerOnDynamicData(related: Related, o: Outcome, c: Change)
    requires !ListPath(c.resourcePath) && !StaticPath(c.resourcePath) && !ChildPath(c.resourcePath)
    requires EndsDynamic(c.resourcePath)
    ensures Step(related, o, c)
         == Outcome(false, if o.code < 409 then 409 else o.code, o.accepted,
                    o.errors + [Error(ConstraintViolation, c.resourcePath, "authSubscriptionDynamicData")])
  {
    BranchOfPath(c.resourcePath);
  }

  /** A path that fits nothing: a DELETE is passed on and sets verdict and code to true and 200, and
      anything else sets them to false and 422. */
  lemma AnswerOnOtherPath(related: Related, o: Outcome, c: Change)
    requires !ListPath(c.resourcePath) && !StaticPath(c.resourcePath) && !ChildPath(c.resourcePath)
    requires !EndsDynamic(c.resourcePath)
    ensures Step(related, o, c)
         == if c.operation == "DELETE" then Outcome(true, 200, o.accepted + [c], o.errors)
            else Outcome(false, 422, o.accepted,
                         o.errors + [Error(UnprocessableEntity, c.resourcePath, "resource_path")])
  {
    BranchOfPath(c.resourcePath);
  }

  lemma NotMutated(related: Related, c: Change)
    requires c.operation != CREATE && c.operation != UPDATE
    ensures Mutate(related, c) == c
  {
  }

  /** A child or the static data with an IMSI: what is neither CREATE nor UPDATE is passed on while the
      verdict is true. */
  lemma AnswerOnImsiData(related: Related, o: Outcome, c: Change)
    requires !ListPath(c.resourcePath) && (StaticPath(c.resourcePath) || ChildPath(c.resourcePath))
    requires ImsiPath(c.resourcePath) && c.operation != "CREATE" && c.operation != "UPDATE"
    ensures Step(related, o, c)
         == Outcome(o.ret, if o.code < 200 then 200 else o.code,
                    if o.ret then o.accepted + [c] else o.accepted, o.errors)
  {
    BranchOfPath(c.resourcePath);
    NotMutated(related, c);
    assert o.errors + [] == o.errors;
  }

  /** The static data or a child with an IMSI, for a CREATE or an UPDATE: the rules decide. */
  ghost predicate RulesDecide(path: string) {
    !ListPath(path) && (StaticPath(path) || ChildPath(path)) && ImsiPath(path)
  }

  /** A given algorithm indicator whose journal is not among the related resources. */
  predicate JournalUnknown(related: Related, c: Change) {
    && c.authSubscription.staticData.Some? && c.authSubscription.staticData.value.akaAlgorithmInd.Some?
    && "/subscribers/" + GetMscId(c.resourcePath) + "/journal/provJournal" !in related
  }

  lemma JournalAsked(related: Related, c: Change)
    ensures JournalMissing(related, c) <==> JournalUnknown(related, c)
  {
  }

  lemma CodeOf(common: seq<Error>, code: int, further: seq<Error>)
    ensures JudgeBy(common, code, further, []).code
         == if common != [] then code else if further != [] then HTTP_CONFLICT else HTTP_OK
    ensures JudgeBy(common, code, further, []).ok <==> JudgeBy(common, code, further, []).errors == []
  {
  }

  /** A CREATE there gets 200 exactly when it is creatable, and otherwise 422 if the journal it needs is
      unknown and 409 if not; nothing is accepted then. */
  lemma AnswerToCreate(related: Related, c: Change)
    requires RulesDecide(c.resourcePath) && c.operation == "CREATE"
    ensures var o := Run(related, START, [c]);
      && NeverThrows(related, START, [c])
      && (o.ret <==> Creatable(related, c.resourcePath, c.authSubscription))
      && o.code == (if o.ret then 200 else if JournalUnknown(related, c) then 422 else 409)
      && o.accepted == if o.ret then [Mutate(related, c)] else []
  {
    BranchOfPath(c.resourcePath);
    AloneExactly(related, c);
    SingleRun(related, c);
    CodeOf(CommonErrors(related, c), CommonCode(related, c), LegacyErrors(related, c));
    CommonStatus(related, c);
    JournalAsked(related, c);
    assert [] + [Mutate(related, c)] == [Mutate(related, c)];
  }

  /** An UPDATE there whose base path is no related resource: 422, and the one error about that. */
  lemma AnswerToOrphanUpdate(related: Related, c: Change)
    requires RulesDecide(c.resourcePath) && c.operation == "UPDATE" && BasePath(c.resourcePath) !in related
    ensures Run(related, START, [c])
         == Outcome(false, 422, [], [Error(UnprocessableEntity, c.resourcePath, "relatedResource")])
  {
    BranchOfPath(c.resourcePath);
    SingleRun(related, c);
    var e := Error(UnprocessableEntity, c.resourcePath, "relatedResource");
    assert [] + [e] == [e];
  }

  /** Any other UPDATE there that carries data gets 200 exactly when it is updatable, and otherwise 422 if
      the journal it needs is unknown and 409 if not. */
  lemma AnswerToUpdate(related: Related, c: Change)
    requires RulesDecide(c.resourcePath) && c.operation == "UPDATE" && BasePath(c.resourcePath) in related
    requires c.authSubscription.staticData.Some?
    ensures var o := Run(related, START, [c]);
      && NeverThrows(related, START, [c])
      && (o.ret <==> Updatable(related, c.resourcePath, c.authSubscription))
      && o.code == (if o.ret then 200 else if JournalUnknown(related, c) then 422 else 409)
      && o.accepted == if o.ret then [c] else []
  {
    BranchOfPath(c.resourcePath);
    AloneExactly(related, c);
    SingleRun(related, c);
    CodeOf(CommonErrors(related, c), CommonCode(related, c), UpdateErrors(related, c));
    CommonStatus(related, c);
    JournalAsked(related, c);
    if CommonErrors(related, c) == [] { UpdateReturnedUnchanged(related, c); }
    assert [] + [c] == [c];
  }

  // ---------- changes on their own ----------

  lemma ListEndsIn(s: string)
    ensures ListPath(s) ==> LastSegment(s) == "authSubscription"
  {
    if ListPath(s) {
      var m: string :| s == "/subscribers/" + m + "/authSubscription";
      ListTail();
      SlashSplit("/subscribers/" + m, "authSubscription");
    }
  }

  lemma ListTail()
    ensures "/authSubscription" == "/" + "authSubscription" && NoSlash("authSubscription")
  {
  }

  lemma SlashSplit(base: string, z: string)
    requires NoSlash(z)
    ensures BasePath(base + ("/" + z)) == base && LastSegment(base + ("/" + z)) == z
    ensures LastSlash(base + ("/" + z)) >= 0
  {
    Regroup(base, "/", z);
    SplitAtLastSlash(base, z);
  }

  lemma ChildEndsIn(s: string, m: string, z: string)
    requires ChildOf(s, m, z)
    ensures LastSlash(s) >= 0 && BasePath(s) == "/subscribers/" + m + "/authSubscription" && LastSegment(s) == z
  {
    Under(m, z);
    SplitAtLastSlash("/subscribers/" + m + "/authSubscription", z);
  }

  lemma ChildIsNoList(s: string, m: string, z: string)
    requires ChildOf(s, m, z) && z != "authSubscription"
    ensures !ListPath(s)
  {
    ChildEndsIn(s, m, z);
    ListEndsIn(s);
  }

  lemma NoOtherIdentifier(s: string, m: string, z: string)
    requires ChildOf(s, m, z) && !IsIdentifier(z)
    ensures !ImsiPath(s)
  {
    ChildEndsIn(s, m, z);
    Identifier(z);
    ImsiMeans(s);
    AuthSubscriptionPattern(BasePath(s));
    AuthSubscriptionEnds(BasePath(s));
    ImsiPathEnds(BasePath(s));
  }

  /** For every subscriber id and every slash-free segment that is not an IMSI (nor makes the path a list
      itself), and every operation: 409, nothing accepted, and the one error about the IMSI. */
  lemma ChildWithoutImsi(related: Related, c: Change, m: string, z: string)
    requires ChildOf(c.resourcePath, m, z) && !IsIdentifier(z) && z != "authSubscription"
    ensures NeverThrows(related, START, [c])
    ensures Run(related, START, [c])
         == Outcome(false, 409, [], [Error(ConstraintViolation, c.resourcePath, "imsi")])
  {
    SingleRun(related, c);
    ChildIsNoList(c.resourcePath, m, z);
    NoOtherIdentifier(c.resourcePath, m, z);
    BranchOfPath(c.resourcePath);
    AnswerWithoutImsi(related, START, c);
    assert [] + [Error(ConstraintViolation, c.resourcePath, "imsi")]
        == [Error(ConstraintViolation, c.resourcePath, "imsi")];
  }

  lemma StaticIsNoList(s: string)
    requires StaticPath(s)
    ensures !ListPath(s)
  {
    ListMeans(s);
    StaticMeans(s);
    AuthSubscriptionEnds(s);
    LastOfSuffix(s, STATIC_DATA);
  }

  lemma LastOfJoin(a: string, b: string)
    requires b != []
    ensures (a + b)[|a + b| - 1] == b[|b| - 1]
  {
  }

  lemma ImsiBehindLast(s: string, base: string, t: string)
    requires NoSlash(t) && t != [] && !IsDigit(t[|t| - 1]) && s == base + ("/" + t) && !ImsiPath(base)
    ensures !ImsiPath(s)
  {
    SlashSplit(base, t);
    ImsiMeans(base);
    ImsiMeans(s);
    ImsiPathEnds(s);
    LastOfJoin(base, "/" + t);
  }

  lemma StaticTail()
    ensures NoSlash(AUTH_SUBSCRIPTION_STATIC_DATA) && STATIC_DATA == "/" + AUTH_SUBSCRIPTION_STATIC_DATA
  {
    StaticNameHasNoSlash();
  }

  lemma StaticBehind(s: string, base: string, tail: string)
    requires s == base + tail && tail == STATIC_DATA && !ImsiPath(base)
    ensures !ImsiPath(s)
  {
    StaticTail();
    ImsiBehindLast(s, base, AUTH_SUBSCRIPTION_STATIC_DATA);
  }

  lemma StaticWithoutIdentifier(s: string, m: string, n: string)
    requires '/' !in n && !IsIdentifier(n)
    requires s == "/subscribers/" + m + "/authSubscription/" + n + "/authSubscriptionStaticData"
    ensures !ImsiPath(s)
  {
    var base := "/subscribers/" + m + "/authSubscription/" + n;
    NoOtherIdentifier(base, m, n);
    StaticBehind(s, base, "/authSubscriptionStaticData");
  }

  /** The same for the static data of such a segment. */
  lemma StaticDataWithoutImsi(related: Related, c: Change, m: string, n: string)
    requires '/' !in n && !IsIdentifier(n)
    requires c.resourcePath == "/subscribers/" + m + "/authSubscription/" + n + "/authSubscriptionStaticData"
    ensures NeverThrows(related, START, [c])
    ensures Run(related, START, [c])
         == Outcome(false, 409, [], [Error(ConstraintViolation, c.resourcePath, "imsi")])
  {
    SingleRun(related, c);
    StaticIsNoList(c.resourcePath);
    StaticWithoutIdentifier(c.resourcePath, m, n);
    BranchOfPath(c.resourcePath);
    AnswerWithoutImsi(related, START, c);
    assert [] + [Error(ConstraintViolation, c.resourcePath, "imsi")]
        == [Error(ConstraintViolation, c.resourcePath, "imsi")];
  }

  lemma TooShort(z: string)
    requires |z| < 10
    ensures !IsIdentifier(z)
  {
  }

  /** A DELETE of an identifier with four digits is refused, not passed on. */
  lemma ShortIdentifierRefused(related: Related, a: AuthSubscription)
    ensures var c := Change("DELETE", "/subscribers/" + "m" + "/authSubscription/" + "imsi-1234", a);
      Run(related, START, [c]) == Outcome(false, 409, [], [Error(ConstraintViolation, c.resourcePath, "imsi")])
  {
    var c := Change("DELETE", "/subscribers/" + "m" + "/authSubscription/" + "imsi-1234", a);
    TooShort("imsi-1234");
    ChildWithoutImsi(related, c, "m", "imsi-1234");
  }
}
