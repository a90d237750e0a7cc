/** The administrator's handlers: completing a settlement (every item becomes paid), editing and
    toggling users, and sending a notification to users. The admin-only decorator, the
    notification and log rows, and e-mail are not part of this model; the clock and the current
    user's id are parameters. */
module AdminRoutes {
  import opened Models

  // ---- Completing a settlement ----

  /** The items marked paid at time now by the administrator whose id is admin. */
  function PaidItems(items: seq<Item>, now: int, admin: int): seq<Item> {
    seq(|items|, i requires 0 <= i < |items| => items[i].(isPaid := true, paidAt := Some(now), paidBy := Some(admin)))
  }

  /** An uncompleted settlement becomes completed, stamped, with every item paid; a completed one
      is left as it is. */
  function CompleteState(st: RecordState, now: int, admin: int): RecordState {
    if st.isCompleted then st
    else RecordState(true, Some(now), Some(admin), PaidItems(st.items, now, admin))
  }

  /** SettlementNotFound is the error reply for an unknown id: the lookup fails inside the
      handler's own error guard, which rolls back, reports the error and redirects. */
  datatype CompleteOutcome = SettlementNotFound | AlreadyCompleted | Completed

  method CompleteTransaction(settlements: map<int, SettlementRecord>, id: int, now: int, admin: int)
    returns (outcome: CompleteOutcome)
    modifies settlements.Values
    ensures outcome == SettlementNotFound <==> id !in settlements
    ensures outcome == AlreadyCompleted <==> id in settlements && old(settlements[id].isCompleted)
    ensures id in settlements ==> settlements[id].State() == CompleteState(old(settlements[id].State()), now, admin)
    ensures forall j :: j in settlements && (id !in settlements || settlements[j] != settlements[id]) ==>
      settlements[j].State() == old(settlements[j].State())
  {
    if id !in settlements {
      return SettlementNotFound;
    }
    var settlement := settlements[id];
    if settlement.isCompleted {
      return AlreadyCompleted;
    }
    settlement.isCompleted := true;
    settlement.completedAt := Some(now);
    settlement.completedBy := Some(admin);
    var i := 0;
    while i < |settlement.items|
      modifies settlement
      invariant 0 <= i <= |settlement.items| == |old(settlement.items)|
      invariant forall k :: 0 <= k < i ==>
        settlement.items[k] == old(settlement.items)[k].(isPaid := true, paidAt := Some(now), paidBy := Some(admin))
      invariant forall k :: i <= k < |settlement.items| ==> settlement.items[k] == old(settlement.items)[k]
      invariant settlement.isCompleted && settlement.completedAt == Some(now) && settlement.completedBy == Some(admin)
    {
      var item := settlement.items[i];
      settlement.items := settlement.items[i := item.(isPaid := true, paidAt := Some(now), paidBy := Some(admin))];
      i := i + 1;
    }
    assert settlement.items == PaidItems(old(settlement.items), now, admin);
    outcome := Completed;
  }

  // ---- Editing a user ----

  /** The fields of the JSON body; an absent field is None. */
  datatype UserUpdate = UserUpdate(email: Option<string>, role: Option<string>, isActive: Option<bool>)

  /** UserNotFound is the 404 for an unknown id. */
  datatype UpdateOutcome = CannotEditSelf | UserNotFound | EmailTaken | UserUpdated

  /** Some other user already has this e-mail address. */
  predicate EmailTakenByOther(users: map<int, UserRow>, email: string, userId: int) {
    exists id :: id in users && id != userId && users[id].email == email
  }

  /** The only roles an update may assign. */
  predicate AllowedRole(role: string) {
    role == "admin" || role == "user"
  }

  /** The current user cannot edit their own account. A non-empty e-mail is taken unless another
      user has it; a role is taken only from the whitelist; an is_active value is always taken. */
  function UpdateIn(users: map<int, UserRow>, currentId: int, userId: int, req: UserUpdate): (UpdateOutcome, map<int, UserRow>) {
    if userId == currentId then (CannotEditSelf, users)
    else if userId !in users then (UserNotFound, users)
    else if req.email.Some? && req.email.value != "" && EmailTakenByOther(users, req.email.value, userId) then (EmailTaken, users)
    else
      var u := users[userId];
      var withEmail := if req.email.Some? && req.email.value != "" then u.(email := req.email.value) else u;
      var withRole := if req.role.Some? && AllowedRole(req.role.value) then withEmail.(role := req.role.value) else withEmail;
      var withActive := if req.isActive.Some? then withRole.(isActive := req.isActive.value) else withRole;
      (UserUpdated, users[userId := withActive])
  }

  method UpdateUser(dir: UserDirectory, currentId: int, userId: int, req: UserUpdate) returns (outcome: UpdateOutcome)
    modifies dir
    ensures (outcome, dir.users) == UpdateIn(old(dir.users), currentId, userId, req)
  {
    if userId == currentId {
      return CannotEditSelf;
    }
    if userId !in dir.users {
      return UserNotFound;
    }
    var user := dir.users[userId];
    if req.email.Some? && req.email.value != "" {
      if EmailTakenByOther(dir.users, req.email.value, userId) {
        return EmailTaken;
      }
      user := user.(email := req.email.value);
    }
    if req.role.Some? && (req.role.value == "admin" || req.role.value == "user") {
      user := user.(role := req.role.value);
    }
    if req.isActive.Some? {
      user := user.(isActive := req.isActive.value);
    }
    dir.users := dir.users[userId := user];
    outcome := UserUpdated;
  }

  // ---- Toggling a user ----

  /** NoSuchUser is the 404 for an unknown id; Toggled carries the new flag. */
  datatype ToggleOutcome = CannotDeactivateSelf | NoSuchUser | Toggled(isActive: bool)

  function ToggleIn(users: map<int, UserRow>, currentId: int, userId: int): (ToggleOutcome, map<int, UserRow>) {
    if userId == currentId then (CannotDeactivateSelf, users)
    else if userId !in users then (NoSuchUser, users)
    else
      var u := users[userId].(isActive := !users[userId].isActive);
      (Toggled(u.isActive), users[userId := u])
  }

  method ToggleUser(dir: UserDirectory, currentId: int, userId: int) returns (outcome: ToggleOutcome)
    modifies dir
    ensures (outcome, dir.users) == ToggleIn(old(dir.users), currentId, userId)
  {
    if userId == currentId {
      return CannotDeactivateSelf;
    }
    if userId !in dir.users {
      return NoSuchUser;
    }
    var user := dir.users[userId];
    user := user.(isActive := !user.isActive);
    dir.users := dir.users[userId := user];
    outcome := Toggled(user.isActive);
  }

  // ---- Sending a notification ----

  /** The characters Python's str.strip() removes by default (those for which str.isspace holds). */
  predicate IsSpace(c: char) {
    var n := c as int;
    (9 <= n <= 13) || (28 <= n <= 32) || n == 0x85 || n == 0xA0 || n == 0x1680 ||
    (0x2000 <= n <= 0x200A) || n == 0x2028 || n == 0x2029 || n == 0x202F || n == 0x205F || n == 0x3000
  }

  function TrimStart(s: string): string {
    if |s| > 0 && IsSpace(s[0]) then TrimStart(s[1..]) else s
  }

  function TrimEnd(s: string): string {
    if |s| > 0 && IsSpace(s[|s| - 1]) then TrimEnd(s[..|s| - 1]) else s
  }

  /** str.strip(): leading and trailing whitespace removed. */
  function Strip(s: string): string {
    TrimEnd(TrimStart(s))
  }

  /** The active users, by id. */
  function ActiveUsers(users: map<int, UserRow>): set<int> {
    set id | id in users && users[id].isActive
  }

  /** How many entries of ids name an existing active user, each entry counted. */
  function ListedCount(users: map<int, UserRow>, ids: seq<int>): nat {
    if |ids| == 0 then 0
    else ListedCount(users, ids[..|ids| - 1]) + (if ids[|ids| - 1] in ActiveUsers(users) then 1 else 0)
  }

  /** The entries of ids that name an existing active user, in the order listed: each such id
      appears as often as it is listed, and no other id appears. */
  function ListedActive(users: map<int, UserRow>, ids: seq<int>): (r: seq<int>)
    ensures |r| == ListedCount(users, ids)
    ensures forall id :: multiset(r)[id] == (if id in ActiveUsers(users) then multiset(ids)[id] else 0)
  {
    if |ids| == 0 then []
    else
      var rest := ListedActive(users, ids[..|ids| - 1]);
      var last := ids[|ids| - 1];
      assert ids == ids[..|ids| - 1] + [last];
      if last in ActiveUsers(users) then rest + [last] else rest
  }

  /** TextRequired is the reply for a blank title or message. */
  datatype NotifyOutcome = TextRequired | Sent(count: nat)

  /** A title and a message that are not blank once stripped are sent to every active user when
      the target is "all", and otherwise to each listed id that is an active user. */
  function NotifyOutcomeOf(users: map<int, UserRow>, title: string, message: string, target: string, ids: seq<int>): NotifyOutcome {
    if Strip(title) == "" || Strip(message) == "" then TextRequired
    else if target == "all" then Sent(|ActiveUsers(users)|)
    else Sent(ListedCount(users, ids))
  }

  lemma NonEmptyHasElement(s: set<int>)
    requires s != {}
    ensures exists x :: x in s
  {
    if forall x :: x !in s {
      assert false;
    }
  }

  /** The active users among the ids in s. */
  ghost function ActiveAmong(users: map<int, UserRow>, s: set<int>): set<int>
    requires s <= users.Keys
  {
    set x | x in s && users[x].isActive
  }

  lemma ActiveAmongAdd(users: map<int, UserRow>, s: set<int>, id: int)
    requires s <= users.Keys && id in users && id !in s
    ensures ActiveAmong(users, s + {id}) == ActiveAmong(users, s) + (if users[id].isActive then {id} else {})
    ensures |ActiveAmong(users, s + {id})| == |ActiveAmong(users, s)| + (if users[id].isActive then 1 else 0)
  {
    assert id !in ActiveAmong(users, s);
  }

  /** The active users, each once: the query for target "all". */
  method ActiveUserIds(users: map<int, UserRow>) returns (targets: seq<int>)
    ensures |targets| == |ActiveUsers(users)|
    ensures forall id :: id in targets <==> id in ActiveUsers(users)
  {
    targets := [];
    var left := users.Keys;
    ghost var done: set<int> := {};
    while left != {}
      invariant left !! done && left + done == users.Keys
      invariant forall id :: id in targets <==> id in ActiveAmong(users, done)
      invariant |targets| == |ActiveAmong(users, done)|
      decreases left
    {
      NonEmptyHasElement(left);
      var id :| id in left;
      ActiveAmongAdd(users, done, id);
      if users[id].isActive {
        targets := targets + [id];
      }
      left := left - {id};
      done := done + {id};
    }
    assert ActiveAmong(users, done) == ActiveUsers(users);
  }

  /** Each listed id that is an active user, in the order listed, repeats kept. */
  method ListedActiveIds(users: map<int, UserRow>, ids: seq<int>) returns (targets: seq<int>)
    ensures targets == ListedActive(users, ids)
    ensures |targets| == ListedCount(users, ids)
    ensures forall id :: multiset(targets)[id] == (if id in ActiveUsers(users) then multiset(ids)[id] else 0)
    ensures forall id :: id in targets ==> id in ActiveUsers(users)
  {
    targets := [];
    var i := 0;
    while i < |ids|
      invariant 0 <= i <= |ids|
      invariant targets == ListedActive(users, ids[..i])
    {
      assert ids[..i + 1][..i] == ids[..i];
      var id := ids[i];
      if id in users && users[id].isActive {
        targets := targets + [id];
      }
      i := i + 1;
    }
    assert ids[..|ids|] == ids;
  }

  /** The users to notify, one per notification. */
  method UsersToNotify(users: map<int, UserRow>, target: string, ids: seq<int>) returns (targets: seq<int>)
    ensures target == "all" ==> |targets| == |ActiveUsers(users)| && (forall id :: id in targets <==> id in ActiveUsers(users))
    ensures target != "all" ==> targets == ListedActive(users, ids) && |targets| == ListedCount(users, ids)
    ensures target != "all" ==> forall id :: multiset(targets)[id] == (if id in ActiveUsers(users) then multiset(ids)[id] else 0)
  {
    if target == "all" {
      targets := ActiveUserIds(users);
    } else {
      targets := ListedActiveIds(users, ids);
    }
  }

  method SendNotification(users: map<int, UserRow>, title: string, message: string, target: string, ids: seq<int>)
    returns (outcome: NotifyOutcome)
    ensures outcome == NotifyOutcomeOf(users, title, message, target, ids)
  {
    var t := Strip(title);
    var m := Strip(message);
    if t == "" || m == "" {
      return TextRequired;
    }
    var targets := UsersToNotify(users, target, ids);
    var notificationCount := 0;
    for k := 0 to |targets|
      invariant notificationCount == k
    {
      notificationCount := notificationCount + 1;
    }
    outcome := Sent(notificationCount);
  }
}
