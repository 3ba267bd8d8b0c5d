/** Booking salon appointments: the opening hours and the overlap check. Times are in microseconds
    since midnight. */
module Appointments {
  import opened Runs

  const MINUTE: int := 60_000_000
  const OPEN: int := 9 * 60 * MINUTE
  const CLOSE: int := 18 * 60 * MINUTE

  datatype Appointment = Appointment(day: int, start: int, minutes: int)
  {
    function End(): int {
      start + minutes * MINUTE
    }
  }

  predicate InHours(a: Appointment) {
    OPEN <= a.start && a.End() <= CLOSE
  }

  /** The endpoint's test, for appointments of the same day. */
  predicate Clash(a: Appointment, b: Appointment) {
    a.day == b.day && a.start < b.End() && b.start < a.End()
  }

  ghost predicate Free(rows: seq<Appointment>, a: Appointment) {
    forall i :: 0 <= i < |rows| ==> !Clash(rows[i], a)
  }

  ghost predicate Accepts(rows: seq<Appointment>, a: Appointment) {
    InHours(a) && Free(rows, a)
  }

  class AppointmentBook {
    var rows: seq<Appointment>

    constructor ()
      ensures rows == []
    {
      rows := [];
    }

    /** The hours and the existing appointments. */
    method Check(a: Appointment) returns (free: bool)
      ensures free <==> Accepts(rows, a)
    {
      if !(OPEN <= a.start && a.End() <= CLOSE) {
        return false;
      }
      for i := 0 to |rows|
        invariant forall j :: 0 <= j < i ==> !Clash(rows[j], a)
      {
        var row := rows[i];
        if row.day == a.day && a.start < row.End() && row.start < a.End() {
          return false;
        }
      }
      free := true;
    }

    method Store(a: Appointment)
      modifies this
      ensures rows == old(rows) + [a]
    {
      rows := rows + [a];
    }

    /** Books an appointment unless it is out of hours or its time is taken. */
    method Create(a: Appointment) returns (booked: bool)
      modifies this
      ensures booked <==> Accepts(old(rows), a)
      ensures rows == Booked(old(rows), a)
    {
      booked := Check(a);
      if booked { Store(a); }
    }
  }

  /** Two appointments clash exactly when they are on one day and share a moment; so one may begin the
      moment another ends. Either must take some time. */
  lemma ClashExactly(a: Appointment, b: Appointment)
    requires a.minutes > 0 && b.minutes > 0
    ensures Clash(a, b) <==> a.day == b.day && exists t :: InTime(a, t) && InTime(b, t)
    ensures a.End() == b.start ==> !Clash(a, b)
  {
    if Clash(a, b) { assert InTime(a, if a.start < b.start then b.start else a.start); }
  }

  /** The moments an appointment takes, in microseconds since midnight. */
  ghost predicate InTime(a: Appointment, t: int) {
    a.start <= t < a.start + a.minutes * 60_000_000
  }

  /** What is asked for is accepted exactly when it takes place between 9:00 and 18:00 and shares no
      moment with an appointment of its day. */
  lemma AcceptsExactly(rows: seq<Appointment>, a: Appointment)
    requires a.minutes > 0 && forall i :: 0 <= i < |rows| ==> rows[i].minutes > 0
    ensures Accepts(rows, a) <==>
              && (forall t :: InTime(a, t) ==> 9 * 3600_000_000 <= t < 18 * 3600_000_000)
              && (forall i, t :: 0 <= i < |rows| && rows[i].day == a.day && InTime(a, t) ==> !InTime(rows[i], t))
  {
    assert InTime(a, a.start) && InTime(a, a.End() - 1);
    forall i | 0 <= i < |rows|
      ensures Clash(rows[i], a) <==> rows[i].day == a.day && exists t :: InTime(rows[i], t) && InTime(a, t)
    {
      ClashExactly(rows[i], a);
    }
  }

  ghost function Booked(rows: seq<Appointment>, a: Appointment): seq<Appointment> {
    if Accepts(rows, a) then rows + [a] else rows
  }

  ghost function BookAll(rows: seq<Appointment>, requests: seq<Appointment>): seq<Appointment>
    decreases |requests|
  {
    if requests == [] then rows else BookAll(Booked(rows, requests[0]), requests[1..])
  }

  // ---------- what the book keeps ----------

  ghost predicate Disjoint(rows: seq<Appointment>) {
    forall i, j :: 0 <= i < j < |rows| ==> !Clash(rows[i], rows[j])
  }

  ghost predicate AllInHours(rows: seq<Appointment>) {
    forall i :: 0 <= i < |rows| ==> InHours(rows[i])
  }

  lemma {:induction false} BookKeeps(rows: seq<Appointment>, requests: seq<Appointment>)
    requires Disjoint(rows) && AllInHours(rows)
    ensures Disjoint(BookAll(rows, requests)) && AllInHours(BookAll(rows, requests))
    decreases |requests|
  {
    if requests != [] {
      BookKeeps(Booked(rows, requests[0]), requests[1..]);
    }
  }

  // ---------- the day ----------

  ghost function Range(lo: int, hi: int): (range: set<int>)
    ensures forall t :: t in range <==> lo <= t < hi
    ensures |range| == if lo < hi then hi - lo else 0
    decreases hi - lo
  {
    if lo < hi then Range(lo, hi - 1) + {hi - 1} else {}
  }

  ghost function Ticks(a: Appointment): set<int> {
    Range(a.start, a.End())
  }

  ghost function Taken(rows: seq<Appointment>, day: int): set<int> {
    if rows == [] then {}
    else Taken(rows[..|rows| - 1], day) + if rows[|rows| - 1].day == day then Ticks(rows[|rows| - 1]) else {}
  }

  function MinutesBooked(rows: seq<Appointment>, day: int): int {
    if rows == [] then 0
    else MinutesBooked(rows[..|rows| - 1], day) + if rows[|rows| - 1].day == day then rows[|rows| - 1].minutes else 0
  }

  lemma {:induction false} TakenBy(rows: seq<Appointment>, day: int, t: int) returns (i: nat)
    requires t in Taken(rows, day)
    ensures i < |rows| && rows[i].day == day && t in Ticks(rows[i])
    decreases |rows|
  {
    var last := |rows| - 1;
    if rows[last].day == day && t in Ticks(rows[last]) { i := last; } else { i := TakenBy(rows[..last], day, t); }
  }

  /** Appointments that do not clash take up separate time. */
  lemma {:induction false} MinutesAreSeparate(rows: seq<Appointment>, day: int)
    requires Disjoint(rows)
    ensures MinutesBooked(rows, day) * MINUTE <= |Taken(rows, day)|
    ensures (forall row <- rows :: row.minutes >= 0) ==> MinutesBooked(rows, day) * MINUTE == |Taken(rows, day)|
    decreases |rows|
  {
    if rows != [] {
      var before, a := rows[..|rows| - 1], rows[|rows| - 1];
      MinutesAreSeparate(before, day);
      if a.day == day {
        forall t | t in Taken(before, day) ensures t !in Ticks(a) {
          var i := TakenBy(before, day, t);
          assert !Clash(rows[i], a);
        }
        assert Taken(before, day) !! Ticks(a);
      }
    }
  }

  /** Whatever is asked for, in whatever order, appointments never clash, and a day never has more
      than the nine opening hours booked. */
  lemma NeverOverbooked(requests: seq<Appointment>, day: int)
    ensures var rows := BookAll([], requests);
            Disjoint(rows) && AllInHours(rows) && MinutesBooked(rows, day) <= 9 * 60
  {
    BookKeeps([], requests);
    var rows := BookAll([], requests);
    MinutesAreSeparate(rows, day);
    var hours := Range(OPEN, CLOSE);
    forall t | t in Taken(rows, day) ensures t in hours {
      var i := TakenBy(rows, day, t);
      assert InHours(rows[i]);
    }
    Subset(Taken(rows, day), hours);
  }

  lemma {:induction false} Subset<T>(a: set<T>, b: set<T>)
    requires a <= b
    ensures |a| <= |b|
    decreases |a|
  {
    if |a| > 0 {
      var x :| x in a;
      Subset(a - {x}, b - {x});
    }
  }

  // ---------- inside the hours ----------

  predicate Inside(a: Appointment) {
    OPEN <= a.start <= CLOSE && OPEN <= a.End() <= CLOSE
  }

  /** An accepted appointment has both its ends in the opening hours, except one of negative length
      that starts after they end or ends before they begin. */
  lemma InsideExactly(rows: seq<Appointment>, a: Appointment)
    requires Accepts(rows, a)
    ensures Inside(a) <==> a.start <= CLOSE && OPEN <= a.End()
    ensures !Inside(a) ==> a.minutes < 0
  {
  }

  lemma NegativeLengthIsAccepted()
    ensures var late := Appointment(0, 23 * 60 * MINUTE, -5 * 60);
            Accepts([], late) && late.start > CLOSE
  {
  }

  ghost predicate AllInside(rows: seq<Appointment>) {
    forall i :: 0 <= i < |rows| ==> Inside(rows[i])
  }

  /** Without requests of negative length every appointment of every book is inside the hours. */
  lemma {:induction false} BookedInside(rows: seq<Appointment>, requests: seq<Appointment>)
    requires AllInside(rows) && forall i :: 0 <= i < |requests| ==> requests[i].minutes >= 0
    ensures AllInside(BookAll(rows, requests))
    decreases |requests|
  {
    hide Accepts, Inside;
    if requests != [] {
      if Accepts(rows, requests[0]) { InsideExactly(rows, requests[0]); }
      BookedInside(Booked(rows, requests[0]), requests[1..]);
    }
  }

  // ---------- requests at the same time ----------

  /** A stored appointment, and how many there were when its request was checked. */
  datatype Entry = Entry(appointment: Appointment, seen: nat)

  datatype Progress = Arrived | Refused | Checked(seen: nat) | Stored

  datatype Request = Request(appointment: Appointment, progress: Progress)

  /** Requests in any stage, and what is stored. */
  datatype Desk = Desk(requests: seq<Request>, entries: seq<Entry>)

  datatype Input = Arrives(appointment: Appointment) | Checks(request: nat) | Stores(request: nat)

  function Rows(entries: seq<Entry>): (rows: seq<Appointment>)
    ensures |rows| == |entries|
  {
    seq(|entries|, i requires 0 <= i < |entries| => entries[i].appointment)
  }

  ghost function Step(d: Desk, input: Input): Desk {
    match input
    case Arrives(a) => d.(requests := d.requests + [Request(a, Arrived)])
    case Checks(i) =>
      if i < |d.requests| && d.requests[i].progress.Arrived? then
        var progress := if Accepts(Rows(d.entries), d.requests[i].appointment) then Checked(|d.entries|) else Refused;
        d.(requests := d.requests[i := d.requests[i].(progress := progress)])
      else d
    case Stores(i) =>
      if i < |d.requests| && d.requests[i].progress.Checked? then
        Desk(d.requests[i := d.requests[i].(progress := Stored)],
             d.entries + [Entry(d.requests[i].appointment, d.requests[i].progress.seen)])
      else d
  }

  ghost function Run(d: Desk, inputs: seq<Input>): Desk
    decreases |inputs|
  {
    if inputs == [] then d else Run(Step(d, inputs[0]), inputs[1..])
  }

  /** A request is checked once, and stored once if it was accepted then; nothing else moves it. */
  lemma RequestExactly(d: Desk, input: Input, i: nat)
    requires i < |d.requests|
    ensures var request, t := d.requests[i], Step(d, input);
            && i < |t.requests| && t.requests[i].appointment == request.appointment
            && t.requests[i].progress ==
               match request.progress {
                 case Arrived =>
                   if input != Checks(i) then Arrived
                   else if Accepts(Rows(d.entries), request.appointment) then Checked(|d.entries|) else Refused
                 case Checked(seen) => if input == Stores(i) then Stored else Checked(seen)
                 case Refused => Refused
                 case Stored => Stored
               }
            && (t.entries != d.entries ==> input.Stores? && input.request < |d.requests|
                                           && d.requests[input.request].progress.Checked?)
            && (input == Stores(i) && request.progress.Checked? ==>
                  t.entries == d.entries + [Entry(request.appointment, request.progress.seen)])
  {
  }

  /** A request that passed its check was free of what was stored then. */
  ghost predicate Passed(entries: seq<Entry>, a: Appointment, seen: nat) {
    seen <= |entries| && InHours(a) && Free(Rows(entries[..seen]), a)
  }

  ghost predicate EntryPassed(entries: seq<Entry>, j: nat)
    requires j < |entries|
  {
    entries[j].seen <= j && Passed(entries, entries[j].appointment, entries[j].seen)
  }

  ghost predicate DeskInv(d: Desk) {
    && (forall i :: 0 <= i < |d.requests| && d.requests[i].progress.Checked? ==>
          Passed(d.entries, d.requests[i].appointment, d.requests[i].progress.seen))
    && (forall j :: 0 <= j < |d.entries| ==> EntryPassed(d.entries, j))
  }

  lemma PassedStays(entries: seq<Entry>, entry: Entry, a: Appointment, seen: nat)
    requires Passed(entries, a, seen)
    ensures Passed(entries + [entry], a, seen)
  {
    assert (entries + [entry])[..seen] == entries[..seen];
  }

  lemma StepKeepsDesk(d: Desk, input: Input)
    requires DeskInv(d)
    ensures DeskInv(Step(d, input))
  {
    hide Passed;
    match input
    case Arrives(a) =>
    case Checks(i) =>
      if i < |d.requests| && Accepts(Rows(d.entries), d.requests[i].appointment) {
        NowPassed(d, d.requests[i].appointment);
      }
    case Stores(i) =>
      if i < |d.requests| && d.requests[i].progress.Checked? {
        var entry := Entry(d.requests[i].appointment, d.requests[i].progress.seen);
        SeenBound(d.entries, entry.appointment, entry.seen);
        forall k | 0 <= k < |d.requests| && d.requests[k].progress.Checked?
          ensures Passed(d.entries + [entry], d.requests[k].appointment, d.requests[k].progress.seen)
        {
          PassedStays(d.entries, entry, d.requests[k].appointment, d.requests[k].progress.seen);
        }
        forall j | 0 <= j < |d.entries| ensures EntryPassed(d.entries + [entry], j) {
          assert EntryPassed(d.entries, j);
          PassedStays(d.entries, entry, d.entries[j].appointment, d.entries[j].seen);
        }
      }
  }

  lemma NowPassed(d: Desk, a: Appointment)
    requires Accepts(Rows(d.entries), a)
    ensures Passed(d.entries, a, |d.entries|)
  {
    assert d.entries[..|d.entries|] == d.entries;
  }

  lemma SeenBound(entries: seq<Entry>, a: Appointment, seen: nat)
    requires Passed(entries, a, seen)
    ensures seen <= |entries|
  {
  }

  lemma {:induction false} RunKeepsDesk(d: Desk, inputs: seq<Input>)
    requires DeskInv(d)
    ensures DeskInv(Run(d, inputs))
    decreases |inputs|
  {
    hide DeskInv, Step;
    if inputs != [] {
      StepKeepsDesk(d, inputs[0]);
      RunKeepsDesk(Step(d, inputs[0]), inputs[1..]);
    }
  }

  const OPENING := Desk([], [])

  /** Appointment i was stored between the check and the store of appointment j. */
  predicate Raced(entries: seq<Entry>, i: int, j: int) {
    0 <= i < j < |entries| && entries[j].seen <= i
  }

  ghost predicate NoClashRaced(entries: seq<Entry>) {
    forall i, j :: Raced(entries, i, j) ==> !Clash(entries[i].appointment, entries[j].appointment)
  }

  /** However requests interleave, the stored appointments do not clash exactly when no two that clash
      raced: when none was stored between the check and the store of one it clashes with. */
  lemma RacingRequests(inputs: seq<Input>)
    ensures var entries := Run(OPENING, inputs).entries;
            Disjoint(Rows(entries)) <==> NoClashRaced(entries)
  {
    hide Run, Clash;
    RunKeepsDesk(OPENING, inputs);
    var entries := Run(OPENING, inputs).entries;
    forall i, j | 0 <= i < j < |entries| && !Raced(entries, i, j)
      ensures !Clash(Rows(entries)[i], Rows(entries)[j])
    {
      assert EntryPassed(entries, j);
      assert Rows(entries[..entries[j].seen])[i] == entries[i].appointment;
    }
    if Disjoint(Rows(entries)) {
      forall i, j | Raced(entries, i, j) ensures !Clash(entries[i].appointment, entries[j].appointment) {
        assert !Clash(Rows(entries)[i], Rows(entries)[j]);
      }
    }
  }

  /** Each request is stored before anything else is, once it was checked. */
  ghost predicate OneAtATime(d: Desk, inputs: seq<Input>)
    decreases |inputs|
  {
    inputs != [] ==>
      && (inputs[0].Stores? && inputs[0].request < |d.requests| && d.requests[inputs[0].request].progress.Checked? ==>
            d.requests[inputs[0].request].progress.seen == |d.entries|)
      && OneAtATime(Step(d, inputs[0]), inputs[1..])
  }

  ghost predicate Unraced(entries: seq<Entry>) {
    forall j :: 0 <= j < |entries| ==> entries[j].seen == j
  }

  lemma {:induction false} RunUnraced(d: Desk, inputs: seq<Input>)
    requires Unraced(d.entries) && OneAtATime(d, inputs)
    ensures Unraced(Run(d, inputs).entries)
    decreases |inputs|
  {
    hide Accepts;
    if inputs != [] {
      assert Unraced(Step(d, inputs[0]).entries);
      RunUnraced(Step(d, inputs[0]), inputs[1..]);
    }
  }

  /** Handled one at a time, appointments never clash. */
  lemma OneAtATimeIsSound(inputs: seq<Input>)
    requires OneAtATime(OPENING, inputs)
    ensures Disjoint(Rows(Run(OPENING, inputs).entries))
  {
    hide Run, OneAtATime;
    RunUnraced(OPENING, inputs);
    RacingRequests(inputs);
    var entries := Run(OPENING, inputs).entries;
    assert NoClashRaced(entries);
  }

  /** Two requests for one slot that are both checked before either is stored are both booked. */
  lemma SlotBookedTwice(a: Appointment)
    requires InHours(a) && a.minutes > 0
    ensures var inputs := [Arrives(a), Arrives(a), Checks(0), Checks(1), Stores(0), Stores(1)];
            var rows := Rows(Run(OPENING, inputs).entries);
            rows == [a, a] && !Disjoint(rows)
  {
    hide Run, IsRun;
    var arrived, checked, stored := Request(a, Arrived), Request(a, Checked(0)), Request(a, Stored);
    var entry := Entry(a, 0);
    var states := [OPENING, Desk([arrived], []), Desk([arrived, arrived], []), Desk([checked, arrived], []),
                   Desk([checked, checked], []), Desk([stored, checked], [entry]),
                   Desk([stored, stored], [entry, entry])];
    var inputs := [Arrives(a), Arrives(a), Checks(0), Checks(1), Stores(0), Stores(1)];
    assert forall i :: 0 <= i < |inputs| ==> Step(states[i], inputs[i]) == states[i + 1];
    RunUnfolds();
    Through(Step, Run, states, inputs);
    var rows := Rows([entry, entry]);
    assert rows[0] == a && rows[1] == a;
  }

  lemma RunUnfolds()
    ensures IsRun(Step, Run)
  {
    hide Step;
  }
}
