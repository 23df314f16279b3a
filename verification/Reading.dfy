/** What the parser makes of a document, member by member and by the names that stand in it. */
module Reading {
  import opened Wrappers
  import opened Numerals
  import opened Lists
  import opened Paths
  import opened Entities
  import opened Members
  import opened Parser
  import opened Server

  // ---------- a subscription ----------

  /** A text member: its text, or nothing if it is absent or no text. */
  function TextOf(members: seq<Member>, name: string): Option<string> {
    match Field(members, name)
    case Some(Str(s)) => Some(s)
    case _ => None
  }

  /** Each attribute of static data is the text of its member. */
  lemma StaticAttributes(members: seq<Member>)
    ensures var d := StaticOf(members);
      && d.authenticationMethod == (var t := TextOf(members, "authenticationMethod"); if t.Some? then t.value else "")
      && d.encPermanentKey == TextOf(members, "encPermanentKey")
      && d.authenticationManagementField == TextOf(members, "authenticationManagementField")
      && d.algorithmId == TextOf(members, "algorithmId")
      && d.a4KeyInd == TextOf(members, "a4KeyInd")
      && d.a4Ind == TextOf(members, "a4Ind")
      && d.encOpcKey == TextOf(members, "encOpcKey")
      && d.encTopcKey == TextOf(members, "encTopcKey")
      && d.a4KeyV == TextOf(members, "a4KeyV")
      && d.akaAlgorithmInd == TextOf(members, "akaAlgorithmInd")
  {
  }

  predicate HasPrefix(k: string, p: string) {
    |p| <= |k| && k[..|p|] == p
  }

  lemma FieldBefore(members: seq<Member>, name: string)
    requires members != []
    ensures var n := |members| - 1;
      Field(members, name)
      == if Field(members[..n], name).Some? then Field(members[..n], name)
         else if members[n].name == name then Some(members[n].value) else None
  {
    var n := |members| - 1;
    assert members == members[..n] + [members[n]];
    FieldOfConcat(members[..n], [members[n]], name);
    FieldOfCons(members[n], [], name);
    assert [members[n]] + [] == [members[n]];
  }

  /** The vendor-specific values are the members with the prefix, the first of a name counting. */
  lemma {:induction false} VendorValues(members: seq<Member>, k: string)
    ensures k in VendorOf(members) <==> HasPrefix(k, "vendorSpecific-") && Field(members, k).Some?
    ensures k in VendorOf(members) ==> Some(VendorOf(members)[k]) == Field(members, k)
  {
    if members != [] {
      VendorValues(members[..|members| - 1], k);
      FieldBefore(members, k);
    }
  }

  /** A member of a name that has to be a text and is none. */
  predicate IsNoText(members: seq<Member>, name: string) {
    Field(members, name).Some? && !Field(members, name).value.Str?
  }

  function Complaint(members: seq<Member>, name: string, path: string): seq<Error> {
    if IsNoText(members, name) then [Error(ConstraintViolation, path, name)] else []
  }

  /** The errors of static data, in order: one for a method that is absent or no text, and one for every
      other attribute that is no text. */
  lemma StaticComplaints(members: seq<Member>, path: string)
    ensures StaticParseErrors(members, path)
         == ((if TextOf(members, "authenticationMethod").Some? then []
              else [Error(ConstraintViolation, path, "authenticationMethod")])
             + Complaint(members, "encPermanentKey", path)
             + Complaint(members, "authenticationManagementField", path)
             + Complaint(members, "algorithmId", path)
             + Complaint(members, "a4KeyInd", path)
             + Complaint(members, "a4Ind", path))
            + (Complaint(members, "encOpcKey", path)
               + Complaint(members, "encTopcKey", path)
               + Complaint(members, "a4KeyV", path)
               + Complaint(members, "akaAlgorithmInd", path))
  {
  }

  /** Dynamic data likewise. */
  lemma DynamicAttributes(members: seq<Member>)
    ensures var d := DynamicOf(members);
      && d.sqnScheme == TextOf(members, "sqnScheme")
      && d.sqn == TextOf(members, "sqn")
      && (d.lastIndexesList.Some? <==> Field(members, "lastIndexes").Some? && Field(members, "lastIndexes").value.Obj?)
      && (d.lastIndexesList.Some? ==>
            d.lastIndexesList.value == IndexesOf(Field(members, "lastIndexes").value.members))
  {
  }

  /** The first integer under a name. */
  function FirstInt(members: seq<Member>, k: string): Option<Int32> {
    if members == [] then None
    else if members[0].name == k && members[0].value.Int? then Some(members[0].value.n)
    else FirstInt(members[1..], k)
  }

  lemma {:induction false} FirstIntBefore(before: seq<Member>, m: Member, k: string)
    ensures FirstInt(before + [m], k)
         == if FirstInt(before, k).Some? then FirstInt(before, k)
            else if m.name == k && m.value.Int? then Some(m.value.n) else None
  {
    if before == [] {
      assert before + [m] == [m] && [m][1..] == [];
    } else {
      assert (before + [m])[0] == before[0] && (before + [m])[1..] == before[1..] + [m];
      FirstIntBefore(before[1..], m, k);
    }
  }

  /** The index of a name is the first integer under it. */
  lemma {:induction false} IndexValues(members: seq<Member>, k: string)
    ensures k in IndexesOf(members) <==> FirstInt(members, k).Some?
    ensures k in IndexesOf(members) ==> Some(IndexesOf(members)[k]) == FirstInt(members, k)
  {
    if members != [] {
      var n := |members| - 1;
      IndexValues(members[..n], k);
      FirstIntBefore(members[..n], members[n], k);
      assert members == members[..n] + [members[n]];
    }
  }

  /** The object under a name. */
  function ObjectOf(members: seq<Member>, name: string): Option<seq<Member>> {
    match Field(members, name)
    case Some(Obj(ms)) => Some(ms)
    case _ => None
  }

  /** A stored subscription has the static data of its object, and without one nothing at all; the dynamic
      data only comes with it. */
  lemma SubscriptionParts(members: seq<Member>)
    ensures var a := SubscriptionOf(members, AuthSubscription(None, None));
      var ss, ds := ObjectOf(members, "authSubscriptionStaticData"), ObjectOf(members, "authSubscriptionDynamicData");
      && a.staticData == (if ss.Some? then Some(StaticOf(ss.value)) else None)
      && a.dynamicData == (if ss.Some? && ds.Some? then Some(DynamicOf(ds.value)) else None)
  {
  }

  lemma DynamicComplaints(members: seq<Member>, path: string)
    ensures DynamicPartErrors(members, path)
         == var ds := ObjectOf(members, "authSubscriptionDynamicData");
            if ds.Some? then DynamicParseErrors(ds.value, path)
            else if Field(members, "authSubscriptionDynamicData").Some?
            then [Error(ConstraintViolation, path, "authSubscriptionDynamicData")] else []
  {
  }

  /** Its errors: the static data must be an object, and the dynamic data one if it is there. */
  lemma SubscriptionComplaints(members: seq<Member>, path: string)
    ensures SubscriptionErrors(members, path)
         == var ss := ObjectOf(members, "authSubscriptionStaticData");
            if ss.None? then [Error(ConstraintViolation, path, "authSubscriptionStaticData")]
            else StaticParseErrors(ss.value, path) + DynamicPartErrors(members, path)
  {
  }

  // ---------- a change ----------

  /** A member of a change that the parser takes. */
  predicate IsReadable(m: Member) {
    && (m.name == "operation" ==> m.value == Str("CREATE") || m.value == Str("UPDATE") || m.value == Str("DELETE"))
    && (m.name == "resource_path" ==> m.value.Str? && m.value.s != "")
    && (m.name == "data" ==> m.value.Obj?)
  }

  lemma ReadableMember(c: Change, errors: seq<Error>, m: Member)
    ensures ReadMember(c, errors, m).Reading? <==> IsReadable(m)
    ensures IsReadable(m) ==>
      var c' := ReadMember(c, errors, m).change;
      && c'.operation == (if m.name == "operation" then m.value.s else c.operation)
      && c'.resourcePath == (if m.name == "resource_path" then m.value.s else c.resourcePath)
  {
  }

  /** The text of the last member of a name, or what was there before. */
  function LastText(members: seq<Member>, name: string, before: string): string
    decreases |members|
  {
    if members == [] then before
    else LastText(members[1..], name,
                  if members[0].name == name && members[0].value.Str? then members[0].value.s else before)
  }

  /** A change is taken exactly when all its members are readable, and the last operation and path count. */
  lemma {:induction false} ReadableChange(c: Change, errors: seq<Error>, members: seq<Member>)
    ensures ReadMembers(c, errors, members).Reading? <==> forall m | m in members :: IsReadable(m)
    ensures ReadMembers(c, errors, members).Reading? ==>
      var c' := ReadMembers(c, errors, members).change;
      && c'.operation == LastText(members, "operation", c.operation)
      && c'.resourcePath == LastText(members, "resource_path", c.resourcePath)
    decreases |members|
  {
    if members != [] {
      var s := ReadMember(c, errors, members[0]);
      ReadableMember(c, errors, members[0]);
      assert forall m :: m in members <==> m == members[0] || m in members[1..];
      if s.Reading? { ReadableChange(s.change, s.errors, members[1..]); }
    }
  }

  lemma SameMember(c: Change, e: seq<Error>, f: seq<Error>, m: Member)
    ensures ReadMember(c, e, m).Reading? <==> ReadMember(c, f, m).Reading?
    ensures ReadMember(c, e, m).Reading? ==> ReadMember(c, e, m).change == ReadMember(c, f, m).change
  {
  }

  /** What a change is does not depend on the errors found before it. */
  lemma {:induction false} SameChange(c: Change, e: seq<Error>, f: seq<Error>, members: seq<Member>)
    ensures ReadMembers(c, e, members).Reading? <==> ReadMembers(c, f, members).Reading?
    ensures ReadMembers(c, e, members).Reading? ==>
      ReadMembers(c, e, members).change == ReadMembers(c, f, members).change
    decreases |members|
  {
    if members != [] {
      SameMember(c, e, f, members[0]);
      if ReadMember(c, e, members[0]).Reading? {
        SameChange(ReadMember(c, e, members[0]).change, ReadMember(c, e, members[0]).errors,
                   ReadMember(c, f, members[0]).errors, members[1..]);
      }
    }
  }

  // ---------- the list of changes ----------

  /** An element of the list that the parser takes. */
  predicate IsReadableItem(j: Json) {
    j.Obj? && forall m | m in j.members :: IsReadable(m)
  }

  /** The change an element stands for. */
  function ChangeOf(j: Json): Change
    requires IsReadableItem(j)
  {
    ReadableChange(NEW_CHANGE, [], j.members);
    ReadMembers(NEW_CHANGE, [], j.members).change
  }

  lemma ReadableItem(s: ChangesState, j: Json)
    requires s.ok
    ensures ReadItem(s, j).ok <==> IsReadableItem(j)
    ensures IsReadableItem(j) ==> ReadItem(s, j).changes == s.changes + [ChangeOf(j)]
    ensures !IsReadableItem(j) ==> ReadItem(s, j).changes == s.changes
  {
    if j.Obj? {
      ReadableChange(NEW_CHANGE, s.errors, j.members);
      ReadableChange(NEW_CHANGE, [], j.members);
      SameChange(NEW_CHANGE, s.errors, [], j.members);
    }
  }

  /** The list is taken exactly when all its elements are readable, and then it gives one change for each,
      in order. */
  lemma {:induction false} ReadableList(s: ChangesState, items: seq<Json>)
    requires s.ok
    ensures ReadItems(s, items).ok <==> forall i | 0 <= i < |items| :: IsReadableItem(items[i])
    ensures ReadItems(s, items).ok ==>
      && |ReadItems(s, items).changes| == |s.changes| + |items|
      && s.changes <= ReadItems(s, items).changes
      && forall i | 0 <= i < |items| :: ReadItems(s, items).changes[|s.changes| + i] == ChangeOf(items[i])
    decreases |items|
  {
    if items != [] {
      var s' := ReadItem(s, items[0]);
      ReadableItem(s, items[0]);
      if s'.ok {
        ReadableList(s', items[1..]);
        assert forall i | 0 < i < |items| :: items[i] == items[1..][i - 1];
        ListStep(s, s', items);
      }
    }
  }

  lemma ListStep(s: ChangesState, s': ChangesState, items: seq<Json>)
    requires items != [] && s.ok && s' == ReadItem(s, items[0]) && IsReadableItem(items[0])
    requires s'.changes == s.changes + [ChangeOf(items[0])]
    requires var r := ReadItems(s', items[1..]);
      r.ok ==>
        && (forall i | 0 <= i < |items[1..]| :: IsReadableItem(items[1..][i]))
        && |r.changes| == |s'.changes| + |items[1..]| && s'.changes <= r.changes
        && forall i | 0 <= i < |items[1..]| :: r.changes[|s'.changes| + i] == ChangeOf(items[1..][i])
    ensures var r := ReadItems(s', items[1..]);
      r.ok ==>
        && (forall i | 0 <= i < |items| :: IsReadableItem(items[i]))
        && |r.changes| == |s.changes| + |items| && s.changes <= r.changes
        && forall i | 0 <= i < |items| :: r.changes[|s.changes| + i] == ChangeOf(items[i])
  {
    var r := ReadItems(s', items[1..]);
    if r.ok {
      assert r.changes[|s.changes|] == s'.changes[|s.changes|];
      forall i | 0 <= i < |items|
        ensures IsReadableItem(items[i]) && r.changes[|s.changes| + i] == ChangeOf(items[i])
      {
        if i > 0 { assert items[i] == items[1..][i - 1]; }
      }
    }
  }

  /** The changes of a document: absent, or a list of readable elements. */
  predicate HasReadableChanges(members: seq<Member>) {
    match Field(members, "changes")
    case None => true
    case Some(Arr(items)) => forall i | 0 <= i < |items| :: IsReadableItem(items[i])
    case _ => false
  }

  /** A document is taken exactly when its changes are readable, and gives one change for each element of
      the list, in order. */
  lemma ChangesOfDocument(doc: Json, decode: Decoder)
    ensures ReadDocument(doc, decode).ok <==> HasReadableChanges(MembersOf(doc))
    ensures ReadDocument(doc, decode).ok ==>
      match Field(MembersOf(doc), "changes")
      case Some(Arr(items)) =>
        && |ReadDocument(doc, decode).changes| == |items|
        && forall i | 0 <= i < |items| :: ReadDocument(doc, decode).changes[i] == ChangeOf(items[i])
      case _ => ReadDocument(doc, decode).changes == []
  {
    var list := Field(MembersOf(doc), "changes");
    if list.Some? && list.value.Arr? { ReadableList(ChangesState(true, [], []), list.value.items); }
  }

  // ---------- the errors of a document ----------

  /** What one member of a change adds to the errors: those of its data, by the path known so far. */
  function MemberErrors(path: string, m: Member): seq<Error> {
    if m.name != "data" || !m.value.Obj? then []
    else if IsAuthSubscriptionUri(path) then SubscriptionErrors(m.value.members, path)
    else if IsStaticDataUri(path) then StaticParseErrors(m.value.members, path)
    else []
  }

  lemma MemberAdds(c: Change, errors: seq<Error>, m: Member)
    ensures ReadMember(c, errors, m).errors == errors + MemberErrors(c.resourcePath, m)
  {
  }

  /** The errors of a change object, up to the first member that is not readable. */
  function ChangeErrors(path: string, members: seq<Member>): seq<Error>
    decreases |members|
  {
    if members == [] || !IsReadable(members[0]) then []
    else
      MemberErrors(path, members[0])
      + ChangeErrors(if members[0].name == "resource_path" then members[0].value.s else path, members[1..])
  }

  lemma {:induction false} ChangeAdds(c: Change, errors: seq<Error>, members: seq<Member>)
    ensures ReadMembers(c, errors, members).errors == errors + ChangeErrors(c.resourcePath, members)
    decreases |members|
  {
    if members != [] {
      var s := ReadMember(c, errors, members[0]);
      MemberAdds(c, errors, members[0]);
      ReadableMember(c, errors, members[0]);
      if s.Reading? {
        ChangeAdds(s.change, s.errors, members[1..]);
        Regroup(errors, MemberErrors(c.resourcePath, members[0]),
                ChangeErrors(s.change.resourcePath, members[1..]));
      }
    }
  }

  function ItemErrors(j: Json): seq<Error> {
    if j.Obj? then ChangeErrors("", j.members) else []
  }

  function ListErrors(items: seq<Json>): seq<Error> {
    if items == [] then [] else ItemErrors(items[0]) + ListErrors(items[1..])
  }

  lemma {:induction false} ListAdds(s: ChangesState, items: seq<Json>)
    requires s.ok && forall i | 0 <= i < |items| :: IsReadableItem(items[i])
    ensures ReadItems(s, items).errors == s.errors + ListErrors(items)
    decreases |items|
  {
    if items != [] {
      ReadableItem(s, items[0]);
      ChangeAdds(NEW_CHANGE, s.errors, items[0].members);
      ListAdds(ReadItem(s, items[0]), items[1..]);
      Regroup(s.errors, ItemErrors(items[0]), ListErrors(items[1..]));
    }
  }

  function ChildErrors(path: string, children: seq<Member>): seq<Error> {
    if children == [] then []
    else SubscriptionErrors(MembersOf(children[0].value), path + "/" + children[0].name)
         + ChildErrors(path, children[1..])
  }

  lemma {:induction false} ChildrenAdd(s: RelatedState, path: string, children: seq<Member>)
    ensures ReadChildren(s, path, children).errors == s.errors + ChildErrors(path, children)
    decreases |children|
  {
    if children != [] {
      var key, ms := AddSuffix(path, children[0].name), MembersOf(children[0].value);
      ChildrenAdd(ReadSubscription(s, key, ms), path, children[1..]);
      Regroup(s.errors, SubscriptionErrors(ms, key), ChildErrors(path, children[1..]));
    }
  }

  /** Only subscriptions have errors: their own, or those of their children. */
  function ResourceErrors(m: Member): seq<Error> {
    if !IsAuthSubscriptionUri(m.name) then []
    else if Field(MembersOf(m.value), "authSubscriptionStaticData").Some? then
      SubscriptionErrors(MembersOf(m.value), m.name)
    else ChildErrors(m.name, MembersOf(m.value))
  }

  lemma ResourceAdds(s: RelatedState, m: Member, decode: Decoder)
    ensures ReadResource(s, m, decode).errors == s.errors + ResourceErrors(m)
  {
    if IsAuthSubscriptionUri(m.name) { ChildrenAdd(s, m.name, MembersOf(m.value)); }
  }

  function AllResourceErrors(resources: seq<Member>): seq<Error> {
    if resources == [] then [] else ResourceErrors(resources[0]) + AllResourceErrors(resources[1..])
  }

  lemma {:induction false} ResourcesAdd(s: RelatedState, resources: seq<Member>, decode: Decoder)
    ensures ReadResources(s, resources, decode).errors == s.errors + AllResourceErrors(resources)
    decreases |resources|
  {
    if resources != [] {
      ResourceAdds(s, resources[0], decode);
      ResourcesAdd(ReadResource(s, resources[0], decode), resources[1..], decode);
      Regroup(s.errors, ResourceErrors(resources[0]), AllResourceErrors(resources[1..]));
    }
  }

  function ItemsOf(doc: Json): seq<Json> {
    match Field(MembersOf(doc), "changes")
    case Some(Arr(items)) => items
    case _ => []
  }

  /** The related resources of a document. */
  function ResourcesOf(doc: Json): seq<Member> {
    match Field(MembersOf(doc), "relatedResources")
    case Some(v) => MembersOf(v)
    case _ => []
  }

  /** The errors of a readable document: those of its changes in order, then those of its resources. */
  lemma ErrorsOfDocument(doc: Json, decode: Decoder)
    requires HasReadableChanges(MembersOf(doc))
    ensures ReadDocument(doc, decode).errors == ListErrors(ItemsOf(doc)) + AllResourceErrors(ResourcesOf(doc))
  {
    ChangesOfDocument(doc, decode);
    ListAdds(ChangesState(true, [], []), ItemsOf(doc));
    var c := ReadChanges(MembersOf(doc), ChangesState(true, [], []));
    assert [] + ListErrors(ItemsOf(doc)) == ListErrors(ItemsOf(doc));
    assert c.errors == ListErrors(ItemsOf(doc));
    ResourcesAdd(RelatedState(map[], c.errors), ResourcesOf(doc), decode);
  }
}
