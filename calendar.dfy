/**
  The calendar page (app/calendar/page.tsx): a list of events, the selected
  day, the events shown for that day, the "schedule an appointment" form,
  deletion with an undo, and the rule that greys out past days.

  Days are "YYYY-MM-DD" strings and times are opaque labels; the instants
  the day picker compares are integer milliseconds of local time.
 */
module Calendar {
  import opened Wrappers
  import opened Lists

  type Day = string

  datatype Event = Event(id: int, title: string, date: Day, time: string, location: string, description: string)

  /** The appointment form. */
  datatype Appointment = Appointment(teacher: string, date: Day, time: string, reason: string)

  /** Why a submission was refused, in the order the fields are checked. */
  datatype SubmitError = MissingTeacher | MissingDate | MissingTime | MissingReason

  const MeetingPrefix := "Meeting with "
  const MeetingLocation := "School"

  const SampleEvents: seq<Event> := [
    Event(1, "Parent-Teacher Conference", "2024-03-15", "3:30 PM - 4:00 PM", "Room 102",
      "Discuss student progress and upcoming projects"),
    Event(2, "Science Fair", "2024-03-20", "1:00 PM - 3:00 PM", "School Gymnasium",
      "Annual science fair with student projects on display"),
    Event(3, "Field Trip - Museum", "2024-04-05", "9:00 AM - 2:00 PM", "City Museum",
      "Educational trip to the natural history museum")
  ]

  // ---------------------------------------------------------------------
  // The events of the selected day

  /** The predicate `event => event.date === day`. */
  function OnDay(d: Day): Event -> bool {
    (e: Event) => e.date == d
  }

  /** `filteredEvents`: nothing without a selected day, otherwise the events on that day. */
  function EventsOn(date: Option<Day>, events: seq<Event>): seq<Event> {
    match date
    case None => []
    case Some(d) => Filter(events, OnDay(d))
  }

  /**
    With a day selected, the view holds exactly the events of that day, in
    the order of the list; with none it is empty.
   */
  lemma EventsOnSelectsTheDay(date: Option<Day>, events: seq<Event>)
    ensures date.None? ==> EventsOn(date, events) == []
    ensures IsSubsequence(EventsOn(date, events), events)
    ensures forall k :: 0 <= k < |EventsOn(date, events)| ==> date.Some? && EventsOn(date, events)[k].date == date.value
    ensures date.Some? ==> forall k :: 0 <= k < |events| && events[k].date == date.value ==> events[k] in EventsOn(date, events)
  {
    match date
    case None =>
    case Some(d) => FilterIsSubsequence(events, OnDay(d));
  }

  // ---------------------------------------------------------------------
  // Scheduling an appointment

  /** The first empty field of the form, checked in the order teacher, date, time, reason. */
  function CheckAppointment(a: Appointment): (r: Option<SubmitError>)
    ensures r.None? <==> a.teacher != "" && a.date != "" && a.time != "" && a.reason != ""
    ensures r == Some(MissingTeacher) <==> a.teacher == ""
    ensures r == Some(MissingDate) <==> a.teacher != "" && a.date == ""
    ensures r == Some(MissingTime) <==> a.teacher != "" && a.date != "" && a.time == ""
    ensures r == Some(MissingReason) <==> a.teacher != "" && a.date != "" && a.time != "" && a.reason == ""
  {
    if a.teacher == "" then Some(MissingTeacher)
    else if a.date == "" then Some(MissingDate)
    else if a.time == "" then Some(MissingTime)
    else if a.reason == "" then Some(MissingReason)
    else None
  }

  /** `Math.max(...events.map(e => e.id))` of a non-empty list. */
  function MaxId(events: seq<Event>): (r: int)
    requires events != []
    ensures forall k :: 0 <= k < |events| ==> events[k].id <= r
    ensures exists k :: 0 <= k < |events| && events[k].id == r
  {
    if |events| == 1 then events[0].id
    else
      var rest := MaxId(events[1..]);
      if events[0].id >= rest then events[0].id else rest
  }

  /** The id of a new event: one more than the largest id, or 1 for an empty list. */
  function NextEventId(events: seq<Event>): (r: int)
    ensures forall k :: 0 <= k < |events| ==> events[k].id < r
    ensures events == [] ==> r == 1
    ensures events != [] ==> exists k :: 0 <= k < |events| && events[k].id == r - 1
  {
    if |events| > 0 then MaxId(events) + 1 else 1
  }

  /** The event a valid form turns into. */
  function MeetingEvent(id: int, a: Appointment): Event {
    Event(id, MeetingPrefix + a.teacher, a.date, a.time, MeetingLocation, a.reason)
  }

  /** No two events share an id. */
  predicate UniqueIds(events: seq<Event>) {
    forall i, j :: 0 <= i < j < |events| ==> events[i].id != events[j].id
  }

  function EventId(e: Event): int {
    e.id
  }

  /** Putting an event with a fresh id in front keeps the ids unique. */
  lemma PrependFreshKeepsUnique(events: seq<Event>, a: Appointment)
    requires UniqueIds(events)
    ensures UniqueIds([MeetingEvent(NextEventId(events), a)] + events)
  {
    var es := [MeetingEvent(NextEventId(events), a)] + events;
    forall i, j | 0 <= i < j < |es| ensures es[i].id != es[j].id {
      if i > 0 {
        assert es[i] == events[i - 1] && es[j] == events[j - 1];
      } else {
        assert es[j] == events[j - 1];
      }
    }
  }

  // ---------------------------------------------------------------------
  // Deleting and restoring

  /** `events.find(e => e.id === id)`: the first event with that id. */
  function FindById(events: seq<Event>, id: int): (r: Option<Event>)
    ensures r.None? <==> forall k :: 0 <= k < |events| ==> events[k].id != id
    ensures r.Some? ==> exists k :: 0 <= k < |events| && events[k] == r.value && r.value.id == id
                          && forall j :: 0 <= j < k ==> events[j].id != id
  {
    if events == [] then None
    else if events[0].id == id then Some(events[0])
    else
      var r := FindById(events[1..], id);
      if r.Some? then
        var k :| 0 <= k < |events[1..]| && events[1..][k] == r.value && r.value.id == id
                 && forall j :: 0 <= j < k ==> events[1..][j].id != id;
        assert events[k + 1] == r.value;
        r
      else r
  }

  /** The predicate `e => e.id !== id`. */
  function OtherId(id: int): Event -> bool {
    (e: Event) => e.id != id
  }

  /** `events.filter(e => e.id !== id)`. */
  function Without(events: seq<Event>, id: int): seq<Event> {
    Filter(events, OtherId(id))
  }

  /**
    Deletion removes every event with the id and keeps the others, every
    copy of each, in their order; when no event has the id, nothing changes.
   */
  lemma WithoutRemovesExactly(events: seq<Event>, id: int)
    ensures IsSubsequence(Without(events, id), events)
    ensures forall k :: 0 <= k < |Without(events, id)| ==> Without(events, id)[k].id != id
    ensures forall k :: 0 <= k < |events| && events[k].id != id ==> events[k] in Without(events, id)
    ensures FindById(events, id).None? ==> Without(events, id) == events
    ensures forall e :: multiset(Without(events, id))[e] == if e.id != id then multiset(events)[e] else 0
  {
    FilterIsSubsequence(events, OtherId(id));
    FilterCounts(events, OtherId(id));
    if FindById(events, id).None? {
      FilterKeepsAll(events, OtherId(id));
    }
  }

  /** Deletion keeps the ids unique. */
  lemma WithoutKeepsUnique(events: seq<Event>, id: int)
    requires UniqueIds(events)
    ensures UniqueIds(Without(events, id))
  {
    WithoutRemovesExactly(events, id);
    SubsequenceKeepsDistinct(Without(events, id), events, EventId);
  }

  /**
    With unique ids, deleting the event found by its id and then putting it
    back at the end gives the same events, counted with multiplicity.
   */
  lemma UndoRestoresEvents(events: seq<Event>, id: int)
    requires UniqueIds(events) && FindById(events, id).Some?
    ensures multiset(Without(events, id) + [FindById(events, id).value]) == multiset(events)
  {
    var e := FindById(events, id).value;
    var k :| 0 <= k < |events| && events[k] == e && e.id == id && forall j :: 0 <= j < k ==> events[j].id != id;
    forall j | 0 <= j < |events| && j != k ensures OtherId(id)(events[j]) {
      if j < k {
        assert events[j].id != events[k].id;
      } else {
        assert events[k].id != events[j].id;
      }
    }
    FilterDropsOne(events, OtherId(id), k);
    MoveToEnd(events, k);
  }

  /**
    Ids are not unique for ever: deleting the newest event, scheduling a new
    one (which reuses the freed id) and then undoing the deletion leaves two
    events with the same id.
   */
  lemma UndoAfterRescheduleDuplicatesId(a: Appointment)
    ensures var e := SampleEvents[2];
      var afterDelete := Without(SampleEvents, 3);
      var afterSubmit := [MeetingEvent(NextEventId(afterDelete), a)] + afterDelete;
      !UniqueIds(afterSubmit + [e])
  {
    var afterDelete := Without(SampleEvents, 3);
    FilterDropsOne(SampleEvents, OtherId(3), 2);
    assert afterDelete == SampleEvents[..2];
    assert NextEventId(afterDelete) == 3;
    var afterSubmit := [MeetingEvent(3, a)] + afterDelete;
    assert (afterSubmit + [SampleEvents[2]])[0].id == (afterSubmit + [SampleEvents[2]])[3].id;
  }

  // ---------------------------------------------------------------------
  // Past days

  /** Milliseconds in a day. */
  const DayMs := 86400000

  /**
    The day picker's `disabled` rule: an instant is disabled when it lies
    before midnight at the start of the day of `now`.
   */
  predicate IsDisabled(instant: int, now: int) {
    instant < now - now % DayMs
  }

  /** A day is disabled exactly when it is an earlier day than today. */
  lemma DisabledIffEarlierDay(instant: int, now: int)
    ensures IsDisabled(instant, now) <==> instant / DayMs < now / DayMs
  {
    assert now - now % DayMs == (now / DayMs) * DayMs;
    if instant / DayMs < now / DayMs {
      assert instant < (instant / DayMs + 1) * DayMs;
    } else {
      assert instant >= (instant / DayMs) * DayMs >= (now / DayMs) * DayMs;
    }
  }

  /** Nothing from the start of today on is disabled, so today can always be picked. */
  lemma TodayIsEnabled(instant: int, now: int)
    requires now - now % DayMs <= instant
    ensures !IsDisabled(instant, now)
  {
  }

  // ---------------------------------------------------------------------
  // The page state

  /** The state of the calendar page and its event handlers. */
  class CalendarPage {
    var date: Option<Day>
    var events: seq<Event>
    var selectedEvent: Option<Event>
    var draft: Appointment

    /** The page opens on today, with the sample events and an empty form dated today. */
    constructor (today: Day)
      ensures date == Some(today) && events == SampleEvents && selectedEvent.None?
      ensures draft == Appointment("", today, "", "")
    {
      date := Some(today);
      events := SampleEvents;
      selectedEvent := None;
      draft := Appointment("", today, "", "");
    }

    /** The events listed for the selected day. */
    function CurrentEvents(): seq<Event>
      reads this
    {
      EventsOn(date, events)
    }

    /**
      `handleDateSelect`: select the day and forget the selected event; a
      defined day also becomes the date of the form.
     */
    method SelectDate(newDate: Option<Day>)
      modifies this`date, this`selectedEvent, this`draft
      ensures date == newDate && selectedEvent.None?
      ensures draft == if newDate.Some? then old(draft).(date := newDate.value) else old(draft)
    {
      date := newDate;
      selectedEvent := None;
      if newDate.Some? {
        draft := draft.(date := newDate.value);
      }
    }

    method EditTeacher(value: string)
      modifies this`draft
      ensures draft == old(draft).(teacher := value)
    {
      draft := draft.(teacher := value);
    }

    method EditDraftDate(value: Day)
      modifies this`draft
      ensures draft == old(draft).(date := value)
    {
      draft := draft.(date := value);
    }

    method EditTime(value: string)
      modifies this`draft
      ensures draft == old(draft).(time := value)
    {
      draft := draft.(time := value);
    }

    method EditReason(value: string)
      modifies this`draft
      ensures draft == old(draft).(reason := value)
    {
      draft := draft.(reason := value);
    }

    /**
      `handleAppointmentSubmit`, with `today` standing for the current date.
      The first empty field is reported and nothing changes; otherwise the
      meeting is put in front of the list under a fresh id and the form is
      cleared, keeping the selected day (or today) as its date.
     */
    method SubmitAppointment(today: Day) returns (error: Option<SubmitError>)
      modifies this`events, this`draft
      ensures error == CheckAppointment(old(draft))
      ensures error.Some? ==> events == old(events) && draft == old(draft)
      ensures error.None? ==>
        events == [MeetingEvent(NextEventId(old(events)), old(draft))] + old(events)
        && draft == Appointment("", if date.Some? then date.value else today, "", "")
      ensures error.None? ==> forall k :: 0 <= k < |old(events)| ==> old(events)[k].id < events[0].id
      ensures UniqueIds(old(events)) ==> UniqueIds(events)
    {
      error := CheckAppointment(draft);
      if error.Some? {
        return;
      }
      if UniqueIds(events) {
        PrependFreshKeepsUnique(events, draft);
      }
      events := [MeetingEvent(NextEventId(events), draft)] + events;
      draft := Appointment("", if date.Some? then date.value else today, "", "");
    }

    /**
      `handleDeleteEvent`: when an event has the id, every event with that
      id is removed and the first of them is returned for the undo action;
      otherwise nothing changes.
     */
    method DeleteEvent(id: int) returns (removed: Option<Event>)
      modifies this`events
      ensures removed == FindById(old(events), id)
      ensures events == if removed.Some? then Without(old(events), id) else old(events)
      ensures UniqueIds(old(events)) ==> UniqueIds(events)
    {
      removed := FindById(events, id);
      if removed.Some? {
        if UniqueIds(events) {
          WithoutKeepsUnique(events, id);
        }
        events := Without(events, id);
      }
    }

    /** The toast's undo action: put the removed event back at the end of the list. */
    method Undo(removed: Event)
      modifies this`events
      ensures events == old(events) + [removed]
    {
      events := events + [removed];
    }
  }
}
