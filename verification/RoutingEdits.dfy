/** Run-time edits of the routing rules: insertion by priority, removal by index, and
    the user list of one rule. */
module RoutingEdits {
  import opened Json
  import opened Selections
  import opened StableSorts
  import opened RoutingMerge

  datatype Edit =
    | AddRule(rule: Json)
    | RemoveRule(index: int)
    | AddUser(marktag: string, email: string)
    | RemoveUser(marktag: string, email: string)

  /** Where `add_rule` puts a rule: before the first object of its class or a later one. */
  function InsertionPoint(rules: seq<Json>, p: int): (i: nat)
    ensures i <= |rules|
  {
    if rules == [] then 0
    else if rules[0].Obj? && ClassifyRulePriority(rules[0]) >= p then 0
    else 1 + InsertionPoint(rules[1..], p)
  }

  function Inserted(rules: seq<Json>, rule: Json): seq<Json>
  {
    var i := InsertionPoint(rules, ClassifyRulePriority(rule));
    rules[..i] + [rule] + rules[i..]
  }

  method AddRuleTo(rules: seq<Json>, rule: Json) returns (r: seq<Json>)
    ensures r == Inserted(rules, rule)
  {
    var newP := ClassifyRulePriority(rule);
    var insertAt := |rules|;
    var i := 0;
    while i < |rules|
      invariant 0 <= i <= |rules| && insertAt == |rules|
      invariant InsertionPoint(rules, newP) == i + InsertionPoint(rules[i..], newP)
    {
      if rules[i].Obj? && ClassifyRulePriority(rules[i]) >= newP {
        insertAt := i;
        break;
      }
      assert rules[i..][1..] == rules[i + 1..];
      i := i + 1;
    }
    r := rules[..insertAt] + [rule] + rules[insertAt..];
  }

  /** The first object that carries the marktag. */
  function FindMarktag(rules: seq<Json>, marktag: string): (i: int)
    ensures -1 <= i < |rules|
    ensures i >= 0 ==> rules[i].Obj? && StringField(rules[i], "marktag") == marktag
  {
    if rules == [] then -1
    else if rules[0].Obj? && StringField(rules[0], "marktag") == marktag then 0
    else
      var j := FindMarktag(rules[1..], marktag);
      if j < 0 then -1 else j + 1
  }

  function Without(users: seq<Json>, email: string): seq<Json>
  {
    if users == [] then []
    else
      var last := users[|users| - 1];
      Without(users[..|users| - 1], email) + if AsString(last) == email then [] else [last]
  }

  function WithUsers(rule: Json, users: seq<Json>): Json
    requires rule.Obj?
  {
    Obj(rule.fields["user" := Arr(users)])
  }

  /** One edit; `None` when it is refused and the rules stay as they are. */
  function Apply(rules: seq<Json>, edit: Edit): Option<seq<Json>>
  {
    match edit
    case AddRule(rule) =>
      if rule.Obj? then Some(Inserted(rules, rule)) else None
    case RemoveRule(index) =>
      if 0 <= index < |rules| then Some(rules[..index] + rules[index + 1..]) else None
    case AddUser(marktag, email) =>
      if TrimSpace(marktag) == "" || TrimSpace(email) == "" then None
      else
        var i := FindMarktag(rules, marktag);
        if i < 0 then None
        else
          var users := AsItems(Get(rules[i].fields, "user"));
          var present := exists k :: 0 <= k < |users| && AsString(users[k]) == email;
          Some(rules[i := WithUsers(rules[i], if present then users else users + [Str(email)])])
    case RemoveUser(marktag, email) =>
      if TrimSpace(marktag) == "" || TrimSpace(email) == "" then None
      else
        var i := FindMarktag(rules, marktag);
        if i < 0 then None
        else Some(rules[i := WithUsers(rules[i], Without(AsItems(Get(rules[i].fields, "user")), email))])
  }

  method FindRule(rules: seq<Json>, marktag: string) returns (i: int)
    ensures i == FindMarktag(rules, marktag)
  {
    i := 0;
    while i < |rules|
      invariant 0 <= i <= |rules|
      invariant FindMarktag(rules, marktag) ==
                (if FindMarktag(rules[i..], marktag) < 0 then -1 else i + FindMarktag(rules[i..], marktag))
    {
      if rules[i].Obj? && StringField(rules[i], "marktag") == marktag {
        return;
      }
      assert rules[i..][1..] == rules[i + 1..];
      i := i + 1;
    }
    i := -1;
  }

  method RemoveEmail(users: seq<Json>, email: string) returns (kept: seq<Json>)
    ensures kept == Without(users, email)
  {
    kept := [];
    assert users[..0] == [];
    for n := 0 to |users|
      invariant kept == Without(users[..n], email)
    {
      assert users[..n + 1][..n] == users[..n];
      if AsString(users[n]) != email {
        kept := kept + [users[n]];
      }
    }
    assert users[..|users|] == users;
  }

  method HasEmail(users: seq<Json>, email: string) returns (present: bool)
    ensures present <==> exists k :: 0 <= k < |users| && AsString(users[k]) == email
  {
    present := false;
    for n := 0 to |users|
      invariant present <==> exists k :: 0 <= k < n && AsString(users[k]) == email
    {
      if AsString(users[n]) == email {
        present := true;
      }
    }
  }

  function UserEdit(marktag: string, email: string, add: bool): Edit
  {
    if add then AddUser(marktag, email) else RemoveUser(marktag, email)
  }

  /** Adds an email to the users of a marked rule, or takes it away. */
  method EditUsers(rules: seq<Json>, marktag: string, email: string, add: bool) returns (r: Option<seq<Json>>)
    ensures r == Apply(rules, UserEdit(marktag, email, add))
  {
    var incomplete := TrimSpace(marktag) == "" || TrimSpace(email) == "";
    if incomplete {
      return None;
    }
    var i := FindRule(rules, marktag);
    if i < 0 {
      return None;
    }
    var users := AsItems(Get(rules[i].fields, "user"));
    if add {
      var present := HasEmail(users, email);
      if !present {
        users := users + [Str(email)];
      }
    } else {
      users := RemoveEmail(users, email);
    }
    r := Some(rules[i := WithUsers(rules[i], users)]);
  }

  /** Adding puts an object in at that place and moves the rules behind it on by one; what is no object
      is refused. */
  lemma RuleAdded(rules: seq<Json>, rule: Json)
    ensures var r := Apply(rules, AddRule(rule));
            var i := InsertionPoint(rules, ClassifyRulePriority(rule));
            && (r == None <==> !rule.Obj?)
            && (r != None ==> |r.value| == |rules| + 1 && r.value[i] == rule && r.value[..i] == rules[..i] && r.value[i + 1..] == rules[i..])
  {
  }

  /** Removing takes one rule out; what is no index is refused. */
  lemma RuleRemoved(rules: seq<Json>, index: int)
    ensures var r := Apply(rules, RemoveRule(index));
            && (r == None <==> index < 0 || index >= |rules|)
            && (r != None ==> |r.value| == |rules| - 1 && r.value[..index] == rules[..index] && r.value[index..] == rules[index + 1..])
  {
  }

  // ----- what an edit of the users leaves -----

  /** Removing an email takes out exactly the entries that are this text. */
  lemma {:induction false} WithoutAre(users: seq<Json>, email: string)
    requires email != ""
    ensures Without(users, email) == Filter(users, (u: Json) => u != Str(email))
  {
    if users != [] {
      WithoutAre(users[..|users| - 1], email);
    }
  }

  /** How often the list names the email. */
  function Named(users: seq<Json>, email: string): nat
  {
    if users == [] then 0
    else Named(users[..|users| - 1], email) + if AsString(users[|users| - 1]) == email then 1 else 0
  }

  lemma {:induction false} NamedIff(users: seq<Json>, email: string)
    ensures Named(users, email) > 0 <==> exists k :: 0 <= k < |users| && AsString(users[k]) == email
  {
    if users != [] {
      var init := users[..|users| - 1];
      NamedIff(init, email);
      assert forall k :: 0 <= k < |init| ==> users[k] == init[k];
    }
  }

  lemma {:induction false} RemovedUnnamed(users: seq<Json>, email: string)
    ensures Named(Without(users, email), email) == 0
  {
    if users != [] {
      var init, last := users[..|users| - 1], users[|users| - 1];
      RemovedUnnamed(init, email);
      if AsString(last) != email {
        assert (Without(init, email) + [last])[..|Without(init, email)|] == Without(init, email);
      } else {
        assert Without(users, email) == Without(init, email);
      }
    }
  }

  lemma {:induction false} WithoutNobody(users: seq<Json>, email: string)
    requires Named(users, email) == 0
    ensures Without(users, email) == users
  {
    if users != [] {
      WithoutNobody(users[..|users| - 1], email);
    }
  }

  lemma AppendNames(users: seq<Json>, email: string)
    ensures Named(users + [Str(email)], email) == Named(users, email) + 1
    ensures Without(users + [Str(email)], email) == Without(users, email)
  {
    assert (users + [Str(email)])[..|users|] == users;
  }

  predicate NoneMarked(rules: seq<Json>, marktag: string)
  {
    forall k :: 0 <= k < |rules| ==> !(rules[k].Obj? && StringField(rules[k], "marktag") == marktag)
  }

  lemma {:induction false} FirstMarked(rules: seq<Json>, marktag: string)
    ensures var i := FindMarktag(rules, marktag); NoneMarked(if i < 0 then rules else rules[..i], marktag)
  {
    if rules != [] {
      FirstMarked(rules[1..], marktag);
      assert forall k :: 0 < k < |rules| ==> rules[k] == rules[1..][k - 1];
    }
  }

  function UsersOf(rule: Json): seq<Json>
    requires rule.Obj?
  {
    AsItems(Get(rule.fields, "user"))
  }

  /** The same rules, but for the users of the one at i. */
  predicate OnlyUsersChange(rules: seq<Json>, after: seq<Json>, i: nat)
    requires i < |rules|
  {
    && |after| == |rules| && rules[i].Obj? && after[i].Obj?
    && (forall k :: 0 <= k < |rules| && k != i ==> after[k] == rules[k])
    && after[i].fields - {"user"} == rules[i].fields - {"user"}
  }

  function UsersAfter(users: seq<Json>, email: string, add: bool): seq<Json>
  {
    if !add then Without(users, email) else if Named(users, email) > 0 then users else users + [Str(email)]
  }

  lemma UserEditIs(rules: seq<Json>, marktag: string, email: string, add: bool)
    ensures var r, i := Apply(rules, UserEdit(marktag, email, add)), FindMarktag(rules, marktag);
            && (r.None? <==> TrimSpace(marktag) == "" || TrimSpace(email) == "" || i < 0)
            && (r.Some? ==> r.value == rules[i := WithUsers(rules[i], UsersAfter(UsersOf(rules[i]), email, add))])
  {
    var i := FindMarktag(rules, marktag);
    if i >= 0 {
      NamedIff(UsersOf(rules[i]), email);
    }
  }

  /** After an add the email is named, once if it was not before, and after a removal it is not; the
      others stay in their order. */
  lemma UsersLeft(users: seq<Json>, email: string, add: bool)
    ensures var after := UsersAfter(users, email, add);
            && Without(after, email) == Without(users, email)
            && Named(after, email) == (if !add then 0 else if Named(users, email) == 0 then 1 else Named(users, email))
  {
    RemovedUnnamed(users, email);
    WithoutNobody(Without(users, email), email);
    AppendNames(users, email);
  }

  lemma UsersSet(rules: seq<Json>, i: nat, users: seq<Json>)
    requires i < |rules| && rules[i].Obj?
    ensures var after := rules[i := WithUsers(rules[i], users)];
            OnlyUsersChange(rules, after, i) && UsersOf(after[i]) == users
  {
  }

  /** An edit of the users is refused exactly when something is blank or no rule has the marktag.
      Otherwise it changes the users of the first such rule, and nothing else. */
  lemma UsersEdited(rules: seq<Json>, marktag: string, email: string, add: bool)
    ensures var r, i := Apply(rules, UserEdit(marktag, email, add)), FindMarktag(rules, marktag);
            && (r.None? <==> TrimSpace(marktag) == "" || TrimSpace(email) == "" || NoneMarked(rules, marktag))
            && (r.Some? ==>
                  && 0 <= i && OnlyUsersChange(rules, r.value, i) && NoneMarked(rules[..i], marktag)
                  && var before, after := UsersOf(rules[i]), UsersOf(r.value[i]);
                  && Without(after, email) == Without(before, email)
                  && Named(after, email) == (if !add then 0 else if Named(before, email) == 0 then 1 else Named(before, email)))
  {
    UserEditIs(rules, marktag, email, add);
    FirstMarked(rules, marktag);
    var i := FindMarktag(rules, marktag);
    if i >= 0 {
      UsersLeft(UsersOf(rules[i]), email, add);
      UsersSet(rules, i, UsersAfter(UsersOf(rules[i]), email, add));
    }
  }

  lemma AppliedTwice(rules: seq<Json>, first: Edit, second: Edit)
    requires Apply(rules, first).Some? && Apply(Apply(rules, first).value, second).Some?
    ensures Run(rules, [first, second]) == Apply(Apply(rules, first).value, second).value
  {
    var edits := [first, second];
    assert edits[..1] == [first] && edits[..1][..0] == [];
    assert Run(rules, edits[..1]) == Apply(rules, first).value;
  }

  lemma EditGives(rules: seq<Json>, marktag: string, email: string, add: bool)
    requires FindMarktag(rules, marktag) >= 0 && TrimSpace(marktag) != "" && TrimSpace(email) != ""
    ensures var i := FindMarktag(rules, marktag);
            Apply(rules, UserEdit(marktag, email, add)) == Some(rules[i := WithUsers(rules[i], UsersAfter(UsersOf(rules[i]), email, add))])
  {
    UserEditIs(rules, marktag, email, add);
  }

  /** Removing an email that has just been added gives the rules back as they were, if the rule had a
      list of users and the email was not on it. */
  lemma AddThenRemove(rules: seq<Json>, marktag: string, email: string)
    requires var i := FindMarktag(rules, marktag);
             i >= 0 && Get(rules[i].fields, "user").Arr? && Named(UsersOf(rules[i]), email) == 0
    requires TrimSpace(marktag) != "" && TrimSpace(email) != ""
    ensures Run(rules, [UserEdit(marktag, email, true), UserEdit(marktag, email, false)]) == rules
  {
    var i := FindMarktag(rules, marktag);
    var users := UsersOf(rules[i]);
    var added := rules[i := WithUsers(rules[i], users + [Str(email)])];
    MarkedStill(rules, marktag, i, users + [Str(email)]);
    UsersSet(rules, i, users + [Str(email)]);
    AddedRemoved(users, email);
    SetBack(rules, i, users + [Str(email)]);
    EditGives(rules, marktag, email, true);
    EditGives(added, marktag, email, false);
    AppliedTwice(rules, UserEdit(marktag, email, true), UserEdit(marktag, email, false));
  }

  lemma AddedRemoved(users: seq<Json>, email: string)
    requires Named(users, email) == 0
    ensures UsersAfter(users, email, true) == users + [Str(email)] && UsersAfter(users + [Str(email)], email, false) == users
  {
    AppendNames(users, email);
    WithoutNobody(users, email);
  }

  lemma SetBack(rules: seq<Json>, i: nat, users: seq<Json>)
    requires i < |rules| && rules[i].Obj? && Get(rules[i].fields, "user").Arr?
    ensures var added := rules[i := WithUsers(rules[i], users)];
            added[i := WithUsers(added[i], UsersOf(rules[i]))] == rules
  {
    var added := rules[i := WithUsers(rules[i], users)];
    assert WithUsers(added[i], UsersOf(rules[i])).fields == rules[i].fields;
  }

  lemma {:induction false} MarkedStill(rules: seq<Json>, marktag: string, i: nat, users: seq<Json>)
    requires FindMarktag(rules, marktag) == i
    ensures FindMarktag(rules[i := WithUsers(rules[i], users)], marktag) == i
  {
    var after := rules[i := WithUsers(rules[i], users)];
    assert StringField(after[i], "marktag") == StringField(rules[i], "marktag");
    if i > 0 {
      MarkedStill(rules[1..], marktag, i - 1, users);
      assert after[1..] == rules[1..][i - 1 := WithUsers(rules[i], users)];
    }
  }

  function Run(rules: seq<Json>, edits: seq<Edit>): seq<Json>
  {
    if edits == [] then rules
    else
      var before := Run(rules, edits[..|edits| - 1]);
      match Apply(before, edits[|edits| - 1])
      case None => before
      case Some(after) => after
  }

  /** A new rule comes before the first object whose class is not smaller than its own. */
  lemma {:induction false} InsertionPointSplits(rules: seq<Json>, p: int)
    ensures var i := InsertionPoint(rules, p);
            && (forall k :: 0 <= k < i ==> !(rules[k].Obj? && ClassifyRulePriority(rules[k]) >= p))
            && (i < |rules| ==> rules[i].Obj? && ClassifyRulePriority(rules[i]) >= p)
  {
    if rules != [] {
      InsertionPointSplits(rules[1..], p);
      forall k | 0 <= k < InsertionPoint(rules, p)
        ensures !(rules[k].Obj? && ClassifyRulePriority(rules[k]) >= p)
      {
        assert k > 0 ==> rules[k] == rules[1..][k - 1];
      }
    }
  }

  /** Adding a rule to a sorted list keeps it sorted exactly when the rule is of the last
      class or nothing that is not an object stands before the place it goes to. */
  lemma InsertedSorted(rules: seq<Json>, rule: Json)
    requires Sorted(rules, ClassifyRulePriority)
    ensures Sorted(Inserted(rules, rule), ClassifyRulePriority)
        <==> || ClassifyRulePriority(rule) == HIGHEST
             || AllObjects(rules[..InsertionPoint(rules, ClassifyRulePriority(rule))])
  {
    var p := ClassifyRulePriority(rule);
    var i := InsertionPoint(rules, p);
    InsertSorted(rules, i, rule, ClassifyRulePriority);
    AfterInsertion(rules, p);
    if p == HIGHEST {
      RulesWithin(rules);
    } else if AllObjects(rules[..i]) {
      ObjectsBeforeInsertion(rules, p);
    } else {
      var k :| 0 <= k < i && !rules[..i][k].Obj?;
      NonObjectIsLast(rules[k]);
    }
  }

  lemma AfterInsertion(rules: seq<Json>, p: int)
    requires Sorted(rules, ClassifyRulePriority)
    ensures forall k :: InsertionPoint(rules, p) <= k < |rules| ==> p <= ClassifyRulePriority(rules[k])
  {
    InsertionPointSplits(rules, p);
    SortedFrom(rules, InsertionPoint(rules, p), p);
  }

  lemma ObjectsBeforeInsertion(rules: seq<Json>, p: int)
    requires AllObjects(rules[..InsertionPoint(rules, p)])
    ensures forall k :: 0 <= k < InsertionPoint(rules, p) ==> ClassifyRulePriority(rules[k]) < p
  {
    InsertionPointSplits(rules, p);
    forall k | 0 <= k < InsertionPoint(rules, p)
      ensures ClassifyRulePriority(rules[k]) < p
    {
      assert rules[..InsertionPoint(rules, p)][k].Obj?;
    }
  }

  lemma NonObjectIsLast(rule: Json)
    requires !rule.Obj?
    ensures ClassifyRulePriority(rule) == HIGHEST
  {
  }

  /** On sorted objects, adding a rule is what a stable sort makes of putting it first: the
      new rule leads its class and nothing else moves. */
  lemma InsertedIsStableSort(rules: seq<Json>, rule: Json)
    requires Sorted(rules, ClassifyRulePriority) && AllObjects(rules)
    ensures Inserted(rules, rule) == SortRules([rule] + rules)
  {
    var key := ClassifyRulePriority;
    var i := InsertionPoint(rules, key(rule));
    InsertionPointSplits(rules, key(rule));
    SortedFrom(rules, i, key(rule));
    RulesWithin([rule] + rules);
    InsertIsStableSort(rules, i, rule, key, LOWEST, HIGHEST);
  }

  lemma SortedFrom(rules: seq<Json>, i: nat, p: int)
    requires Sorted(rules, ClassifyRulePriority)
    requires i < |rules| ==> p <= ClassifyRulePriority(rules[i])
    ensures forall k :: i <= k < |rules| ==> p <= ClassifyRulePriority(rules[k])
  {
    var key := ClassifyRulePriority;
    forall k | i <= k < |rules| ensures p <= key(rules[k]) {
      assert key(rules[i]) <= key(rules[k]);
    }
  }

  lemma UsersKeepPriority(rule: Json, users: seq<Json>)
    requires rule.Obj?
    ensures ClassifyRulePriority(WithUsers(rule, users)) == ClassifyRulePriority(rule)
  {
    assert StringField(WithUsers(rule, users), "outboundTag") == StringField(rule, "outboundTag");
    assert StringField(WithUsers(rule, users), "marktag") == StringField(rule, "marktag");
  }

  lemma EditUsersKeepsSorted(rules: seq<Json>, i: nat, users: seq<Json>)
    requires i < |rules| && Sorted(rules, ClassifyRulePriority) && AllObjects(rules)
    ensures var r := rules[i := WithUsers(rules[i], users)];
            Sorted(r, ClassifyRulePriority) && AllObjects(r)
  {
    UsersKeepPriority(rules[i], users);
    UpdateSorted(rules, i, WithUsers(rules[i], users), ClassifyRulePriority);
  }

  lemma ApplyKeepsSorted(rules: seq<Json>, edit: Edit)
    requires Sorted(rules, ClassifyRulePriority) && AllObjects(rules)
    ensures match Apply(rules, edit)
            case None => true
            case Some(r) => Sorted(r, ClassifyRulePriority) && AllObjects(r)
  {
    match edit
    case AddRule(rule) => if rule.Obj? { AddKeepsSorted(rules, rule); }
    case RemoveRule(index) =>
      if 0 <= index < |rules| {
        RemoveSorted(rules, index, ClassifyRulePriority);
      }
    case AddUser(marktag, email) => UserKeepsSorted(rules, marktag, email);
    case RemoveUser(marktag, email) => UserKeepsSorted(rules, marktag, email);
  }

  lemma AddKeepsSorted(rules: seq<Json>, rule: Json)
    requires Sorted(rules, ClassifyRulePriority) && AllObjects(rules) && rule.Obj?
    ensures Sorted(Inserted(rules, rule), ClassifyRulePriority) && AllObjects(Inserted(rules, rule))
  {
    InsertedSorted(rules, rule);
  }

  lemma UserKeepsSorted(rules: seq<Json>, marktag: string, email: string)
    requires Sorted(rules, ClassifyRulePriority) && AllObjects(rules)
    ensures var a := Apply(rules, AddUser(marktag, email));
            a.Some? ==> Sorted(a.value, ClassifyRulePriority) && AllObjects(a.value)
    ensures var r := Apply(rules, RemoveUser(marktag, email));
            r.Some? ==> Sorted(r.value, ClassifyRulePriority) && AllObjects(r.value)
  {
    var i := FindMarktag(rules, marktag);
    if i >= 0 {
      var users := AsItems(Get(rules[i].fields, "user"));
      EditUsersKeepsSorted(rules, i, users);
      EditUsersKeepsSorted(rules, i, users + [Str(email)]);
      EditUsersKeepsSorted(rules, i, Without(users, email));
    }
  }

  /** From sorted rule objects, any run of edits leaves sorted rule objects, so the stable
      sort at the next boot moves none of them. */
  lemma {:induction false} RunStaysInBootOrder(rules: seq<Json>, edits: seq<Edit>)
    requires Sorted(rules, ClassifyRulePriority) && AllObjects(rules)
    ensures Sorted(Run(rules, edits), ClassifyRulePriority) && AllObjects(Run(rules, edits))
    ensures SortRules(Run(rules, edits)) == Run(rules, edits)
  {
    if edits != [] {
      RunStaysInBootOrder(rules, edits[..|edits| - 1]);
      ApplyKeepsSorted(Run(rules, edits[..|edits| - 1]), edits[|edits| - 1]);
    }
    RulesWithin(Run(rules, edits));
    StableSortUnique(Run(rules, edits), Run(rules, edits), ClassifyRulePriority, LOWEST, HIGHEST);
  }
}
