/** The stored records the handlers read and update: advance rows, settlements with their items,
    the debt ledger, the members' outstanding advances and the users. Each class with several
    fields exposes them as one value, State(), so that the handlers can be specified by pure
    transitions; the user directory's one field, its map of users, serves that purpose itself. */
module Models {
  import opened Calendar
  import opened Settlement

  datatype Option<T> = None | Some(value: T)

  /** One WeeklyAdvance row. */
  datatype AdvanceRecord = AdvanceRecord(memberName: string, amount: real, advanceDate: Date, weekStart: Date, weekEnd: Date)

  /** One SettlementItem row; times are clock readings and user ids are integers. */
  datatype Item = Item(
    memberName: string,
    grossShare: real,
    advance: real,
    netPayout: real,
    isPaid: bool,
    paidAt: Option<int>,
    paidBy: Option<int>,
    receivedAt: Option<int>)

  /** The mutable part of a settlement: its completion flags and its items. */
  datatype RecordState = RecordState(isCompleted: bool, completedAt: Option<int>, completedBy: Option<int>, items: seq<Item>)

  /** A Settlement row with its items; the computed amounts never change after creation. */
  class SettlementRecord {
    const values: SettlementValues
    var isCompleted: bool
    var completedAt: Option<int>
    var completedBy: Option<int>
    var items: seq<Item>

    function State(): RecordState
      reads this
    {
      RecordState(isCompleted, completedAt, completedBy, items)
    }

    constructor (values: SettlementValues, items: seq<Item>)
      ensures this.values == values
      ensures State() == RecordState(false, None, None, items)
    {
      this.values := values;
      isCompleted := false;
      completedAt := None;
      completedBy := None;
      this.items := items;
    }
  }

  datatype DebtState = DebtState(total: real, remaining: real)

  /** The single Debt row. */
  class Debt {
    var totalDebt: real
    var remainingDebt: real

    function State(): DebtState
      reads this
    {
      DebtState(totalDebt, remainingDebt)
    }

    /** Debt(total_debt=0, remaining_debt=0), created when there is none yet. */
    constructor ()
      ensures State() == DebtState(0.0, 0.0)
    {
      totalDebt := 0.0;
      remainingDebt := 0.0;
    }
  }

  /** The WeeklyAdvance table and each member's outstanding advance (Member.outstanding_advance,
      keyed by name, for the members that exist). */
  datatype Book = Book(records: seq<AdvanceRecord>, outstanding: map<string, real>)

  class AdvanceBook {
    var records: seq<AdvanceRecord>
    var outstanding: map<string, real>

    function State(): Book
      reads this
    {
      Book(records, outstanding)
    }

    constructor (members: map<string, real>)
      ensures State() == Book([], members)
    {
      records := [];
      outstanding := members;
    }
  }

  /** A User row (the password hash and creation time are not part of this model). */
  datatype UserRow = UserRow(username: string, email: string, role: string, isActive: bool)

  /** The User table, by id. */
  class UserDirectory {
    var users: map<int, UserRow>

    constructor (users: map<int, UserRow>)
      ensures this.users == users
    {
      this.users := users;
    }
  }
}
