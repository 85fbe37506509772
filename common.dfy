/** Shared vocabulary of the wage ledger: optional values, handler results,
    the failure reasons the handlers report, the explicit "today" that replaces
    the calendar oracle, and the shapes of the documents a monthly record holds. */
module Common {

  datatype Option<+T> = None | Some(value: T)

  /** What a request handler answers: a value, or one of the failures below. */
  datatype Result<+T> = Ok(value: T) | Error(error: ApiError)

  type RecordId = nat
  type WorkerId = nat
  type ThekedarId = nat

  /** Every failure a modelled handler can answer with. */
  datatype ApiError =
    | InvalidPresence          // presence outside the four allowed words
    | InvalidDayDate           // attendance day outside the open window
    | AttendanceExists         // an entry for that day is already there
    | AttendanceNotFound       // no entry for the day to update or delete
    | RecordNotFound           // a referenced monthly record is absent
    | DateRequired             // settlement day missing (falsy)
    | InvalidSettlementDate    // settlement day not in (last settlement, numberOfDays]
    | FutureSettlement         // settlement day after today
    | SettledDateRequired      // adjustment without a settlement day
    | AmountRequired           // adjustment without a (truthy) amount
    | NoSettlement             // adjustment on a record never settled
    | AdjustmentWindowClosed   // adjustment not on the latest settlement's day
    | RecordAlreadyCreated     // worker already has a current record
    | NameRequired             // worker without a name
    | InvalidRole              // role outside mistri, labour, general
    | WagesRequired            // missing or zero wagesPerDay
    | StatusUnchanged          // toggling to the status the worker already has
    | NoRecordsToDelete        // every requested record is protected
    | NoCurrentRecord          // the worker's current record id is null
    | NoWorkerIds              // empty list of workers to delete
    | WorkerNotFound           // worker to delete is not one of this thekedar's

  /** The HTTP status class each failure is reported with. */
  function StatusOf(e: ApiError): (code: nat)
    ensures code in {400, 404, 500}
    ensures code == 404 <==> e in {AttendanceNotFound, RecordNotFound, WorkerNotFound}
    ensures code == 500 <==> e == NoCurrentRecord
  {
    match e
    case AttendanceNotFound | RecordNotFound | WorkerNotFound => 404
    case NoCurrentRecord => 500
    case _ => 400
  }

  /** The calendar oracle's answer for "now": year, 0-based month, day of
      month, 0-based weekday (Sunday = 0) and the length of the month. */
  datatype Today = Today(year: int, monthIndex: int, dayDate: int, dayIndex: int, numberOfDays: int)
  {
    ghost predicate Valid() {
      0 <= monthIndex < 12 && 1 <= dayDate <= numberOfDays && 0 <= dayIndex < 7
    }
  }

  /** Weekday names indexed by the oracle's dayIndex. */
  const Days: seq<string> := ["sunday", "monday", "tuesday", "wednesday", "thursday", "friday", "saturday"]

  /** The four attendance words a daily entry may carry. */
  const Presences: set<string> := {"half", "present", "absent", "one-and-half"}

  /** Purpose stored with an advance given without one. */
  const DefaultPurpose: string := "General Work"

  /** A cash advance recorded with a daily entry. */
  datatype Advance = Advance(amount: int, purpose: string)

  /** One day's attendance entry of a monthly record. An entry created without
      an advance stores an empty advance object, here None. */
  datatype DailyRecord = DailyRecord(dayDate: int, day: string, presence: string,
                                     wagesOfDay: int, advance: Option<Advance>)

  /** The advance amount an entry contributes to the advance total. */
  function AdvanceOf(e: DailyRecord): int {
    if e.advance.Some? then e.advance.value.amount else 0
  }

  /** A settlement event; fields a settlement never set read as 0. */
  datatype Settlement = Settlement(dayDate: int, wagesOccured: int, advanceOccured: int,
                                   amountTaken: int, wagesTransferred: int, advanceTransferred: int)

  /** The boundary of the latest settlement: the day settled up to, the day it
      was performed on and that day's weekday name. */
  datatype LastSettlement = LastSettlement(dayDate: int, performedOn: int, dayName: string)

  /** A character that JavaScript's trim removes from either end: tab, line
      feed, vertical tab, form feed, carriage return, the byte order mark, the
      line and paragraph separators, and the space separators of Unicode
      (space, no-break space, ogham space mark, the en quad to hair space
      range, narrow no-break space, medium mathematical space, ideographic
      space). */
  predicate IsSpace(c: char) {
    var n := c as int;
    || 9 <= n <= 13 || n == 32 || n == 0xA0 || n == 0x1680 || 0x2000 <= n <= 0x200A
    || n == 0x2028 || n == 0x2029 || n == 0x202F || n == 0x205F || n == 0x3000 || n == 0xFEFF
  }

  /** A string made only of whitespace, the empty one included. */
  predicate Blank(s: string) {
    forall i :: 0 <= i < |s| ==> IsSpace(s[i])
  }

  /** s without its leading whitespace. */
  function TrimStart(s: string): (t: string)
    ensures |t| <= |s| && t == s[|s| - |t|..]
    ensures t == [] || !IsSpace(t[0])
    ensures forall i :: 0 <= i < |s| - |t| ==> IsSpace(s[i])
  {
    if s != [] && IsSpace(s[0]) then TrimStart(s[1..]) else s
  }

  /** s without its trailing whitespace. */
  function TrimEnd(s: string): (t: string)
    ensures |t| <= |s| && t == s[..|t|]
    ensures t == [] || !IsSpace(t[|t| - 1])
    ensures forall i :: |t| <= i < |s| ==> IsSpace(s[i])
  {
    if s != [] && IsSpace(s[|s| - 1]) then TrimEnd(s[..|s| - 1]) else s
  }

  /** s without whitespace at either end: empty exactly when s is blank, and
      otherwise starting and ending with a visible character. */
  function Trim(s: string): (t: string)
    ensures |t| <= |s|
    ensures t == [] <==> Blank(s)
    ensures t != [] ==> !IsSpace(t[0]) && !IsSpace(t[|t| - 1])
  {
    var u := TrimStart(s);
    var t := TrimEnd(u);
    t
  }

  /** Trimming twice trims no more than trimming once. */
  lemma TrimIdempotent(s: string)
    ensures Trim(Trim(s)) == Trim(s)
  {
    TrimKeeps(Trim(s));
  }

  /** A string that is empty, or starts and ends with a visible character, is
      its own trim. */
  lemma TrimKeeps(t: string)
    requires t == [] || (!IsSpace(t[0]) && !IsSpace(t[|t| - 1]))
    ensures Trim(t) == t
  {
    assert TrimStart(t) == t;
    assert TrimEnd(t) == t;
  }

  /** The presence words carry no whitespace at their ends. */
  lemma PresencesTrimmed(w: string)
    requires w in Presences
    ensures Trim(w) == w
  {
    assert w[0] in "hpao" && w[|w| - 1] in "tfe";
    TrimKeeps(w);
  }
}
