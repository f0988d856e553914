/**
 * The reminder job of server/inngest/index.js: which shows are about to start, who
 * holds seats in them, one reminder task per holder, and the sent/failed tally of the
 * delivery attempts. Sending mail is outside the model: `delivered` says, per task,
 * whether its delivery was fulfilled.
 */
module Reminders {
  import opened Wrappers
  import opened Bookings

  const EIGHT_HOURS_MS: int := 8 * 60 * 60 * 1000
  const TEN_MINUTES_MS: int := 10 * 60 * 1000

  /** A show as the reminder query returns it; `movieTitle` and `occupiedSeats` may be missing. */
  datatype ReminderShow = ReminderShow(showTime: int, movieTitle: Option<string>,
                                       occupiedSeats: Option<map<SeatId, UserId>>)

  /** The name and e-mail address of a user record. */
  datatype Contact = Contact(name: string, email: string)

  datatype ReminderTask = ReminderTask(userEmail: string, userName: string, movieTitle: string, showTime: int)

  /** The job's result: nothing to send, or how many deliveries were fulfilled and how many were not. */
  datatype ReminderSummary = NothingToSend | Sent(sent: nat, failed: nat)

  /** The query window: from eight hours minus ten minutes ahead up to eight hours ahead, both included. */
  predicate InReminderWindow(showTime: int, now: int): (b: bool)
    ensures b <==> 0 <= now + EIGHT_HOURS_MS - showTime <= TEN_MINUTES_MS
    ensures b ==> now < showTime
  {
    now + EIGHT_HOURS_MS - TEN_MINUTES_MS <= showTime <= now + EIGHT_HOURS_MS
  }

  /** The users to remind for a show: the distinct holders that have a user record. */
  function Recipients(occupied: map<SeatId, UserId>, users: map<UserId, Contact>): (r: set<UserId>)
    ensures forall u :: u in r <==> u in users && exists s :: s in occupied && occupied[s] == u
  {
    occupied.Values * users.Keys
  }

  /** A show gets reminders: in the window, with a movie and a seat map that has holders. */
  predicate Reminded(show: ReminderShow, now: int) {
    InReminderWindow(show.showTime, now) && show.movieTitle.Some? && show.occupiedSeats.Some? &&
    show.occupiedSeats.value.Values != {}
  }

  /** How many tasks the shows `shows` give: one per recipient of every reminded show. */
  function TaskCount(shows: seq<ReminderShow>, users: map<UserId, Contact>, now: int): nat
  {
    if shows == [] then 0
    else
      var last := shows[|shows| - 1];
      TaskCount(shows[..|shows| - 1], users, now) +
      (if Reminded(last, now) then |Recipients(last.occupiedSeats.value, users)| else 0)
  }

  /** The task of user `u` for show `show`: the user's e-mail and name, the movie's title, the show's time. */
  function TaskOf(show: ReminderShow, u: UserId, users: map<UserId, Contact>): ReminderTask
    requires show.movieTitle.Some? && u in users
  {
    ReminderTask(users[u].email, users[u].name, show.movieTitle.value, show.showTime)
  }

  /** `t` is the task of user `u` for show `show`. */
  predicate IsTaskFor(t: ReminderTask, show: ReminderShow, u: UserId, users: map<UserId, Contact>)
    requires show.movieTitle.Some? && u in users
  {
    t == TaskOf(show, u, users)
  }

  /** `t` is the task of some recipient of some reminded show in `shows`. */
  ghost predicate FromRemindedShow(t: ReminderTask, shows: seq<ReminderShow>, users: map<UserId, Contact>, now: int) {
    exists k, u :: 0 <= k < |shows| && Reminded(shows[k], now) &&
      u in Recipients(shows[k].occupiedSeats.value, users) && IsTaskFor(t, shows[k], u, users)
  }

  /** The inner loop of the task step: one task per recipient of `show`, in the order the user records come back. */
  method TasksForShow(show: ReminderShow, users: map<UserId, Contact>) returns (tasks: seq<ReminderTask>)
    requires show.movieTitle.Some? && show.occupiedSeats.Some?
    ensures |tasks| == |Recipients(show.occupiedSeats.value, users)|
    ensures forall i :: 0 <= i < |tasks| ==>
      exists u :: u in Recipients(show.occupiedSeats.value, users) && IsTaskFor(tasks[i], show, u, users)
    ensures forall u :: u in Recipients(show.occupiedSeats.value, users) ==> TaskOf(show, u, users) in tasks
  {
    var recipients := Recipients(show.occupiedSeats.value, users);
    var remaining := recipients;
    tasks := [];
    while remaining != {}
      invariant remaining <= recipients
      invariant |tasks| + |remaining| == |recipients|
      invariant forall i :: 0 <= i < |tasks| ==> exists u :: u in recipients && IsTaskFor(tasks[i], show, u, users)
      invariant forall u :: u in recipients && u !in remaining ==> TaskOf(show, u, users) in tasks
      decreases remaining
    {
      var u :| u in remaining;
      var task := TaskOf(show, u, users);
      assert IsTaskFor(task, show, u, users);
      tasks := tasks + [task];
      remaining := remaining - {u};
    }
  }

  /** The tasks of one reminded show come from a reminded show of `shows`. */
  lemma TasksOfRemindedShow(shows: seq<ReminderShow>, users: map<UserId, Contact>, now: int, k: nat,
                            more: seq<ReminderTask>)
    requires k < |shows| && Reminded(shows[k], now)
    requires forall i :: 0 <= i < |more| ==>
      exists u :: u in Recipients(shows[k].occupiedSeats.value, users) && IsTaskFor(more[i], shows[k], u, users)
    ensures forall t :: t in more ==> FromRemindedShow(t, shows, users, now)
  {
    forall t | t in more ensures FromRemindedShow(t, shows, users, now) {
      var i :| 0 <= i < |more| && more[i] == t;
      var u :| u in Recipients(shows[k].occupiedSeats.value, users) && IsTaskFor(more[i], shows[k], u, users);
    }
  }

  /** Adding show `k` adds its recipients to the count when it is reminded. */
  lemma TaskCountStep(shows: seq<ReminderShow>, users: map<UserId, Contact>, now: int, k: nat)
    requires k < |shows|
    ensures TaskCount(shows[..k + 1], users, now) ==
      TaskCount(shows[..k], users, now) + (if Reminded(shows[k], now) then |Recipients(shows[k].occupiedSeats.value, users)| else 0)
  {
    assert shows[..k + 1][..k] == shows[..k];
  }

  /** Every recipient of every reminded show among the first `k` shows has its task in `tasks`. */
  ghost predicate Covered(shows: seq<ReminderShow>, users: map<UserId, Contact>, now: int, k: nat, tasks: seq<ReminderTask>)
    requires k <= |shows|
  {
    forall k', u :: (0 <= k' < k && Reminded(shows[k'], now) &&
                     u in Recipients(shows[k'].occupiedSeats.value, users)) ==>
      TaskOf(shows[k'], u, users) in tasks
  }

  /** Appending the tasks of show `k` extends the coverage to show `k`. */
  lemma CoveredStep(shows: seq<ReminderShow>, users: map<UserId, Contact>, now: int, k: nat,
                    before: seq<ReminderTask>, more: seq<ReminderTask>)
    requires k < |shows| && Covered(shows, users, now, k, before)
    requires Reminded(shows[k], now) ==>
      forall u :: u in Recipients(shows[k].occupiedSeats.value, users) ==> TaskOf(shows[k], u, users) in more
    ensures Covered(shows, users, now, k + 1, before + more)
  {
    forall k', u | (0 <= k' < k + 1 && Reminded(shows[k'], now) &&
                    u in Recipients(shows[k'].occupiedSeats.value, users))
      ensures TaskOf(shows[k'], u, users) in before + more
    {
      if k' < k {
        assert TaskOf(shows[k'], u, users) in before;
      }
    }
  }

  /** One pass of the outer loop: the tasks of show `k` are appended when it is reminded. */
  method AppendShowTasks(shows: seq<ReminderShow>, users: map<UserId, Contact>, now: int, k: nat,
                         tasks: seq<ReminderTask>) returns (tasks': seq<ReminderTask>)
    requires k < |shows|
    requires |tasks| == TaskCount(shows[..k], users, now)
    requires forall t :: t in tasks ==> FromRemindedShow(t, shows, users, now)
    requires Covered(shows, users, now, k, tasks)
    ensures |tasks'| == TaskCount(shows[..k + 1], users, now)
    ensures forall t :: t in tasks' ==> FromRemindedShow(t, shows, users, now)
    ensures Covered(shows, users, now, k + 1, tasks')
  {
    var show := shows[k];
    var more: seq<ReminderTask> := [];
    if InReminderWindow(show.showTime, now) && show.movieTitle.Some? && show.occupiedSeats.Some?
       && show.occupiedSeats.value.Values != {} {
      more := TasksForShow(show, users);
      TasksOfRemindedShow(shows, users, now, k, more);
    }
    TaskCountStep(shows, users, now, k);
    CoveredStep(shows, users, now, k, tasks, more);
    tasks' := tasks + more;
  }

  /**
   * The `prepare-reminder-tasks` step: for every show in the window that has a movie and
   * holders, one task per distinct holder with a user record. The order in which the user
   * query returns the records is not fixed, so it is chosen arbitrarily here.
   */
  method PrepareReminderTasks(shows: seq<ReminderShow>, users: map<UserId, Contact>, now: int)
    returns (tasks: seq<ReminderTask>)
    ensures |tasks| == TaskCount(shows, users, now)
    ensures forall t :: t in tasks ==> FromRemindedShow(t, shows, users, now)
    ensures forall k, u :: (0 <= k < |shows| && Reminded(shows[k], now) &&
                            u in Recipients(shows[k].occupiedSeats.value, users)) ==>
      TaskOf(shows[k], u, users) in tasks
  {
    tasks := [];
    var k := 0;
    while k < |shows|
      invariant 0 <= k <= |shows|
      invariant |tasks| == TaskCount(shows[..k], users, now)
      invariant forall t :: t in tasks ==> FromRemindedShow(t, shows, users, now)
      invariant Covered(shows, users, now, k, tasks)
    {
      tasks := AppendShowTasks(shows, users, now, k, tasks);
      k := k + 1;
    }
    assert shows[..k] == shows;
  }

  /** How many deliveries were fulfilled. */
  function CountFulfilled(delivered: seq<bool>): (n: nat)
    ensures n <= |delivered|
    ensures n == |delivered| <==> forall i :: 0 <= i < |delivered| ==> delivered[i]
    ensures n == 0 <==> forall i :: 0 <= i < |delivered| ==> !delivered[i]
  {
    if delivered == [] then 0
    else
      var rest := CountFulfilled(delivered[1..]);
      assert forall i :: 1 <= i < |delivered| ==> delivered[i] == delivered[1..][i - 1];
      (if delivered[0] then 1 else 0) + rest
  }

  /** The tally: nothing to send for no tasks; otherwise sent + failed covers every task. */
  function Summarize(delivered: seq<bool>): (s: ReminderSummary)
    ensures delivered == [] <==> s == NothingToSend
    ensures s.Sent? ==> s.sent + s.failed == |delivered| && s.sent == CountFulfilled(delivered)
  {
    if delivered == [] then NothingToSend
    else
      var sent := CountFulfilled(delivered);
      Sent(sent, |delivered| - sent)
  }

  /** `sendShowReminders`: build the tasks, try every delivery, report the tally of fulfilled ones. */
  method SendShowReminders(shows: seq<ReminderShow>, users: map<UserId, Contact>, now: int,
                           deliver: ReminderTask -> bool)
    returns (tasks: seq<ReminderTask>, summary: ReminderSummary)
    ensures |tasks| == TaskCount(shows, users, now)
    ensures forall t :: t in tasks ==> FromRemindedShow(t, shows, users, now)
    ensures forall k, u :: (0 <= k < |shows| && Reminded(shows[k], now) &&
                            u in Recipients(shows[k].occupiedSeats.value, users)) ==>
      TaskOf(shows[k], u, users) in tasks
    ensures summary == NothingToSend <==> TaskCount(shows, users, now) == 0
    ensures summary.Sent? ==>
      summary.sent == CountFulfilled(seq(|tasks|, i requires 0 <= i < |tasks| => deliver(tasks[i]))) &&
      summary.failed == |tasks| - summary.sent
  {
    tasks := PrepareReminderTasks(shows, users, now);
    if |tasks| == 0 {
      return tasks, NothingToSend;
    }
    var results := seq(|tasks|, i requires 0 <= i < |tasks| => deliver(tasks[i]));
    summary := Summarize(results);
  }
}
