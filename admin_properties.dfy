/** What the administrator's handlers guarantee: completion happens once and pays every item,
    the user edits keep their guards and the directory's invariants, toggling is its own inverse,
    and the notification count is the number of active users addressed. */
module AdminProperties {
  import opened Models
  import opened Routes
  import opened AdminRoutes

  // ---- Completing a settlement ----

  /** Completing an open settlement stamps it and marks every item paid by that administrator at
      that time, leaving the rest of each item as it was. */
  lemma CompletePaysEveryItem(st: RecordState, now: int, admin: int)
    requires !st.isCompleted
    ensures var after := CompleteState(st, now, admin);
      after.isCompleted && after.completedAt == Some(now) && after.completedBy == Some(admin) &&
      |after.items| == |st.items| &&
      forall i :: 0 <= i < |st.items| ==>
        after.items[i].isPaid && after.items[i].paidAt == Some(now) && after.items[i].paidBy == Some(admin) &&
        after.items[i].(isPaid := st.items[i].isPaid, paidAt := st.items[i].paidAt, paidBy := st.items[i].paidBy) == st.items[i]
  {
  }

  /** A settlement is completed only once: completing it again, at any time and by anyone,
      changes nothing. */
  lemma CompleteIdempotent(st: RecordState, now1: int, admin1: int, now2: int, admin2: int)
    ensures CompleteState(CompleteState(st, now1, admin1), now2, admin2) == CompleteState(st, now1, admin1)
    ensures st.isCompleted ==> CompleteState(st, now1, admin1) == st
  {
  }

  /** Once completed, no item of the settlement can be marked received any more. */
  lemma CompletedItemsCannotBeReceived(st: RecordState, now: int, admin: int, k: int, t: int)
    requires !st.isCompleted && 0 <= k < |st.items|
    ensures MarkReceivedIn(CompleteState(st, now, admin), k, t).0 == InvalidOperation
  {
  }

  // ---- Editing a user ----

  /** The outcomes of an edit: the current user is refused, an unknown id is a 404, a non-empty
      e-mail held by another user is refused; anything refused leaves the directory alone. */
  lemma UpdateGuards(users: map<int, UserRow>, currentId: int, userId: int, req: UserUpdate)
    ensures var (outcome, after) := UpdateIn(users, currentId, userId, req);
      (outcome == CannotEditSelf <==> userId == currentId) &&
      (outcome == UserNotFound <==> userId != currentId && userId !in users) &&
      (outcome == EmailTaken <==>
        userId != currentId && userId in users && req.email.Some? && req.email.value != "" &&
        EmailTakenByOther(users, req.email.value, userId)) &&
      (outcome != UserUpdated ==> after == users)
  {
  }

  /** A successful edit changes only the edited user, never the user name, takes a role only
      from the whitelist, takes a non-empty e-mail, and takes the active flag whenever given. */
  lemma UpdateEffect(users: map<int, UserRow>, currentId: int, userId: int, req: UserUpdate)
    requires UpdateIn(users, currentId, userId, req).0 == UserUpdated
    ensures var after := UpdateIn(users, currentId, userId, req).1;
            var u, v := users[userId], after[userId];
      userId != currentId && userId in users &&
      after.Keys == users.Keys &&
      (forall j :: j in users && j != userId ==> after[j] == users[j]) &&
      v.username == u.username &&
      v.role == (if req.role.Some? && AllowedRole(req.role.value) then req.role.value else u.role) &&
      v.email == (if req.email.Some? && req.email.value != "" then req.email.value else u.email) &&
      v.isActive == (if req.isActive.Some? then req.isActive.value else u.isActive)
  {
  }

  /** Every user has one of the two roles. */
  ghost predicate RolesWhitelisted(users: map<int, UserRow>) {
    forall id :: id in users ==> AllowedRole(users[id].role)
  }

  /** No two users share an e-mail address. */
  ghost predicate UniqueEmails(users: map<int, UserRow>) {
    forall i, j :: i in users && j in users && i != j ==> users[i].email != users[j].email
  }

  /** Edits keep every role in the whitelist and every e-mail address unique. */
  lemma {:induction false} UpdateKeepsInvariants(users: map<int, UserRow>, currentId: int, userId: int, req: UserUpdate)
    ensures RolesWhitelisted(users) ==> RolesWhitelisted(UpdateIn(users, currentId, userId, req).1)
    ensures UniqueEmails(users) ==> UniqueEmails(UpdateIn(users, currentId, userId, req).1)
  {
    var (outcome, after) := UpdateIn(users, currentId, userId, req);
    if outcome == UserUpdated {
      UpdateEffect(users, currentId, userId, req);
      if UniqueEmails(users) {
        forall i, j | i in after && j in after && i != j ensures after[i].email != after[j].email {
          if i == userId && req.email.Some? && req.email.value != "" {
            assert users[j].email != req.email.value;
          } else if j == userId && req.email.Some? && req.email.value != "" {
            assert users[i].email != req.email.value;
          }
        }
      }
    }
  }

  // ---- Toggling a user ----

  /** The current user is refused, an unknown id is a 404; otherwise only that user's active flag
      flips, and the reply carries the new value. */
  lemma ToggleEffect(users: map<int, UserRow>, currentId: int, userId: int)
    ensures var (outcome, after) := ToggleIn(users, currentId, userId);
      (outcome == CannotDeactivateSelf <==> userId == currentId) &&
      (outcome == NoSuchUser <==> userId != currentId && userId !in users) &&
      (!outcome.Toggled? ==> after == users) &&
      (outcome.Toggled? ==>
        after.Keys == users.Keys &&
        after[userId] == users[userId].(isActive := !users[userId].isActive) &&
        outcome.isActive == !users[userId].isActive &&
        forall j :: j in users && j != userId ==> after[j] == users[j])
  {
  }

  /** Toggling the same user twice restores the directory. */
  lemma {:induction false} ToggleTwiceRestores(users: map<int, UserRow>, currentId: int, userId: int)
    ensures ToggleIn(ToggleIn(users, currentId, userId).1, currentId, userId).1 == users
  {
    var once := ToggleIn(users, currentId, userId).1;
    var twice := ToggleIn(once, currentId, userId).1;
    if userId != currentId && userId in users {
      assert twice.Keys == users.Keys;
      assert twice[userId] == users[userId];
    }
  }

  /** Deactivating an active user removes exactly that user from the active ones, and
      activating an inactive user adds exactly that user. */
  lemma {:induction false} ToggleChangesActiveUsers(users: map<int, UserRow>, currentId: int, userId: int)
    requires userId != currentId && userId in users
    ensures var after := ToggleIn(users, currentId, userId).1;
      ActiveUsers(after) == if users[userId].isActive then ActiveUsers(users) - {userId} else ActiveUsers(users) + {userId}
  {
  }

  // ---- Sending a notification ----

  /** Every character is whitespace. */
  predicate Blank(s: string) {
    forall i :: 0 <= i < |s| ==> IsSpace(s[i])
  }

  /** Stripping leaves the slice s[a..b] of the text, which neither starts nor ends with
      whitespace, with only whitespace cut off either side. */
  lemma {:induction false} StripFacts(s: string) returns (a: nat, b: nat)
    ensures a <= b <= |s| && Strip(s) == s[a..b]
    ensures forall i :: 0 <= i < a ==> IsSpace(s[i])
    ensures forall i :: b <= i < |s| ==> IsSpace(s[i])
    ensures b > a ==> !IsSpace(s[a]) && !IsSpace(s[b - 1])
  {
    var t := TrimStart(s);
    TrimStartFacts(s);
    TrimEndFacts(t);
    a := |s| - |t|;
    b := a + |TrimEnd(t)|;
    assert t == s[a..];
    assert Strip(s) == s[a..b];
    forall i | b <= i < |s| ensures IsSpace(s[i]) {
      assert s[i] == t[i - a];
    }
    if b > a {
      assert s[a] == Strip(s)[0] && s[b - 1] == Strip(s)[b - a - 1];
    }
  }

  lemma {:induction false} TrimStartFacts(s: string)
    ensures var r := TrimStart(s);
      |r| <= |s| && r == s[|s| - |r|..] &&
      (forall i :: 0 <= i < |s| - |r| ==> IsSpace(s[i])) &&
      (|r| > 0 ==> !IsSpace(r[0]))
    decreases |s|
  {
    if |s| > 0 && IsSpace(s[0]) {
      TrimStartFacts(s[1..]);
      var r := TrimStart(s[1..]);
      assert s[1..][|s| - 1 - |r|..] == s[|s| - |r|..];
      forall i | 0 <= i < |s| - |r| ensures IsSpace(s[i]) {
        if i > 0 {
          assert s[i] == s[1..][i - 1];
        }
      }
    }
  }

  lemma {:induction false} TrimEndFacts(s: string)
    ensures var r := TrimEnd(s);
      |r| <= |s| && r == s[..|r|] &&
      (forall i :: |r| <= i < |s| ==> IsSpace(s[i])) &&
      (|r| > 0 ==> !IsSpace(r[|r| - 1]))
    decreases |s|
  {
    if |s| > 0 && IsSpace(s[|s| - 1]) {
      var p := s[..|s| - 1];
      TrimEndFacts(p);
      var r := TrimEnd(p);
      assert p[..|r|] == s[..|r|];
      forall i | |r| <= i < |s| ensures IsSpace(s[i]) {
        if i < |s| - 1 {
          assert s[i] == p[i];
        }
      }
    }
  }

  /** A title or message is refused exactly when it is blank. */
  lemma {:induction false} StripEmptyIffBlank(s: string)
    ensures Strip(s) == "" <==> Blank(s)
  {
    var t := TrimStart(s);
    TrimStartFacts(s);
    TrimEndFacts(t);
    assert |t| > 0 ==> t[0] == s[|s| - |t|];
    assert Strip(s) == "" ==> t == "";
    assert Blank(s) ==> t == "";
  }

  /** The reply to a notification with a blank title or message, and the count otherwise. */
  lemma {:induction false} NotifyOutcomeCases(users: map<int, UserRow>, title: string, message: string, target: string, ids: seq<int>)
    ensures var o := NotifyOutcomeOf(users, title, message, target, ids);
      (o == TextRequired <==> Blank(title) || Blank(message)) &&
      (o.Sent? && target == "all" ==> o.count == |ActiveUsers(users)|) &&
      (o.Sent? && target != "all" ==> o.count <= |ids|)
  {
    StripEmptyIffBlank(title);
    StripEmptyIffBlank(message);
    ListedCountFacts(users, ids);
  }

  /** Each listed entry counts once, so the count reaches the number of entries exactly when
      every entry is an active user. */
  lemma {:induction false} ListedCountFacts(users: map<int, UserRow>, ids: seq<int>)
    ensures ListedCount(users, ids) <= |ids|
    ensures ListedCount(users, ids) == |ids| <==> forall i :: 0 <= i < |ids| ==> ids[i] in ActiveUsers(users)
    decreases |ids|
  {
    if |ids| > 0 {
      var p := ids[..|ids| - 1];
      ListedCountFacts(users, p);
      forall i | 0 <= i < |p| ensures p[i] == ids[i] {
      }
    }
  }

  /** Appending an id not yet listed adds it to the listed active users exactly when it is active. */
  lemma ListedStep(active: set<int>, p: seq<int>, last: int)
    requires last !in p
    ensures |(set x | x in p + [last]) * active| == |(set x | x in p) * active| + (if last in active then 1 else 0)
  {
    var before := (set x | x in p) * active;
    var after := (set x | x in p + [last]) * active;
    if last in active {
      assert after == before + {last};
    } else {
      assert after == before;
    }
  }

  /** With no id listed twice, the count is the number of distinct active users listed. */
  lemma {:induction false} ListedDistinctCount(users: map<int, UserRow>, ids: seq<int>)
    requires forall i, j :: 0 <= i < j < |ids| ==> ids[i] != ids[j]
    ensures ListedCount(users, ids) == |(set x | x in ids) * ActiveUsers(users)|
    decreases |ids|
  {
    if |ids| > 0 {
      var p := ids[..|ids| - 1];
      var last := ids[|ids| - 1];
      assert ids == p + [last];
      assert forall j :: 0 <= j < |p| ==> p[j] == ids[j];
      assert last !in p;
      ListedDistinctCount(users, p);
      ListedStep(ActiveUsers(users), p, last);
    }
  }

  /** A user listed twice is notified twice. */
  lemma DuplicateIdNotifiedTwice()
    ensures NotifyOutcomeOf(map[5 := UserRow("willy", "willy@example.com", "user", true)], "Rent", "Due Friday", "selected", [5, 5]) == Sent(2)
  {
    var users := map[5 := UserRow("willy", "willy@example.com", "user", true)];
    assert 5 in ActiveUsers(users);
    assert ListedCount(users, [5]) == 1 by {
      assert [5][..0] == [];
    }
    assert [5, 5][..1] == [5];
    assert ListedCount(users, [5, 5]) == 2;
    assert TrimStart("Rent") == "Rent" && TrimEnd("Rent") == "Rent";
    assert TrimStart("Due Friday") == "Due Friday";
    assert TrimEnd("Due Friday") == "Due Friday";
  }
}
