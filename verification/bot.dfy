/**
 * The daily quote-of-the-day subscriptions of the bot (bot.py): the
 * `subscriptions` registry, the `/subscribe` and `/unsubscribe` handlers
 * that change it, and the projection written to the subscriptions file.
 *
 * The job queue is seen only through what the handlers do with it: a daily
 * job is scheduled under a fresh id, and a job is cancelled. Replies sent
 * with `send_async` are appended to an outbox, in the order they are sent.
 */
module Bot {
  import opened Wrappers
  import opened Text
  import Messages

  type UserId = int
  type ChatId = int
  type JobId = nat

  /** What the registry keeps per user: the daily job and the raw time string it was made from. */
  datatype Subscription = Subscription(job: JobId, rawTime: string)

  /** A daily job: send the quote of the day to `chatId` at `hour`:`minute`. */
  datatype DailyJob = DailyJob(chatId: ChatId, hour: nat, minute: nat)

  /** A message sent to a chat. */
  datatype Reply = Reply(chatId: ChatId, text: string)

  /** How `subscribe_handler` answers a command: one reply and no change, or the time to schedule. */
  datatype Verdict = Reject(reply: string) | Accept(hour: nat, minute: nat)

  // ---------------------------------------------------------------- the time argument

  /**
   * `re.match(r'^\d\d:\d\d$', s)`, with `\d` read as an ASCII digit. Python's
   * `$` also matches just before a final newline, so "hh:mm\n" matches too.
   */
  predicate MatchesTimePattern(s: string) {
    (|s| == 5 || (|s| == 6 && s[5] == '\n')) &&
    IsDigit(s[0]) && IsDigit(s[1]) && s[2] == ':' && IsDigit(s[3]) && IsDigit(s[4])
  }

  /** `int()` of the part before the colon. */
  function Hour(s: string): nat
    requires MatchesTimePattern(s)
  {
    DigitsValue(s[..2])
  }

  /** `int()` of the part after the colon (`int` ignores a trailing newline). */
  function Minute(s: string): nat
    requires MatchesTimePattern(s)
  {
    DigitsValue(s[3..5])
  }

  /** The raw times a subscription may hold. */
  predicate IsTimeOfDay(s: string) {
    MatchesTimePattern(s) && Hour(s) <= 23 && Minute(s) <= 59
  }

  /** The two digits on each side of the colon, read as decimal numbers. */
  lemma HourMinuteDigits(s: string)
    requires MatchesTimePattern(s)
    ensures Hour(s) == 10 * DigitValue(s[0]) + DigitValue(s[1])
    ensures Minute(s) == 10 * DigitValue(s[3]) + DigitValue(s[4])
  {
    var h, m := s[..2], s[3..5];
    assert h[..1] == [s[0]] && h[1] == s[1] && [s[0]][..0] == [];
    assert DigitsValue([s[0]]) == DigitValue(s[0]);
    assert m[..1] == [s[3]] && m[1] == s[4] && [s[3]][..0] == [];
    assert DigitsValue([s[3]]) == DigitValue(s[3]);
  }

  /** Without a newline in it, a time argument matches exactly when it is two digits, a colon and two digits. */
  lemma TimePatternWithoutNewline(s: string)
    requires '\n' !in s
    ensures MatchesTimePattern(s) <==>
      |s| == 5 && IsDigit(s[0]) && IsDigit(s[1]) && s[2] == ':' && IsDigit(s[3]) && IsDigit(s[4])
  {
    if |s| == 6 {
      assert s[5] in s;
    }
  }

  // ---------------------------------------------------------------- the guard chain

  /** The raw time the registry holds for `user`, if any. */
  function StoredTime(subscriptions: map<UserId, Subscription>, user: UserId): Option<string>
  {
    if user in subscriptions then Some(subscriptions[user].rawTime) else None
  }

  /**
   * The guards of `subscribe_handler`, in their order: the argument count,
   * the same raw time as the stored one, the pattern, the hour, the minute.
   */
  function SubscribeVerdict(args: seq<string>, stored: Option<string>): (v: Verdict)
    ensures v.Accept? <==> |args| == 1 && stored != Some(args[0]) && IsTimeOfDay(args[0])
    ensures v.Accept? ==> v.hour == Hour(args[0]) <= 23 && v.minute == Minute(args[0]) <= 59
  {
    if |args| != 1 then Reject(Messages.NoTimeArgument)
    else
      var rawTime := args[0];
      if stored == Some(rawTime) then Reject(Messages.AlreadySubscribed(rawTime))
      else if !MatchesTimePattern(rawTime) then Reject(Messages.IncorrectTimeFormat)
      else if Hour(rawTime) > 23 then Reject(Messages.InvalidHour)
      else if Minute(rawTime) > 59 then Reject(Messages.InvalidMinute)
      else Accept(Hour(rawTime), Minute(rawTime))
  }

  /**
   * Which reply a rejected command gets. The order of the guards shows: the
   * already-subscribed test wins over a malformed time, and a bad hour wins
   * over a bad minute.
   */
  lemma RejectionReplies(args: seq<string>, stored: Option<string>)
    ensures |args| != 1 ==> SubscribeVerdict(args, stored) == Reject(Messages.NoTimeArgument)
    ensures |args| == 1 && stored == Some(args[0]) ==>
      SubscribeVerdict(args, stored) == Reject(Messages.AlreadySubscribed(args[0]))
    ensures |args| == 1 && stored != Some(args[0]) && !MatchesTimePattern(args[0]) ==>
      SubscribeVerdict(args, stored) == Reject(Messages.IncorrectTimeFormat)
    ensures |args| == 1 && stored != Some(args[0]) && MatchesTimePattern(args[0]) && Hour(args[0]) > 23 ==>
      SubscribeVerdict(args, stored) == Reject(Messages.InvalidHour)
    ensures |args| == 1 && stored != Some(args[0]) && MatchesTimePattern(args[0]) &&
            Hour(args[0]) <= 23 && Minute(args[0]) > 59 ==>
      SubscribeVerdict(args, stored) == Reject(Messages.InvalidMinute)
  {
  }

  /** "25:00" is refused for its hour, whatever the minute, and "09:00" twice is refused as already subscribed. */
  lemma VerdictExamples()
    ensures SubscribeVerdict(["25:00"], None) == Reject(Messages.InvalidHour)
    ensures SubscribeVerdict(["09:00"], Some("09:00")) == Reject(Messages.AlreadySubscribed("09:00"))
    ensures SubscribeVerdict(["09:00"], None) == Accept(9, 0)
  {
    HourMinuteDigits("25:00");
    HourMinuteDigits("09:00");
  }

  // ---------------------------------------------------------------- the registry

  /** The file contents `save_subscriptions` writes: every user's raw time and nothing else. */
  predicate IsSnapshotOf(snapshot: map<UserId, string>, subscriptions: map<UserId, Subscription>) {
    snapshot.Keys == subscriptions.Keys &&
    forall user :: user in snapshot ==> snapshot[user] == subscriptions[user].rawTime
  }

  /** A non-empty set of users has a member to pick. */
  lemma MemberOfNonEmpty(users: set<UserId>)
    requires users != {}
    ensures exists user :: user in users
  {
    if forall user :: user !in users {
      assert false;
    }
  }

  /** A subscription's job is scheduled, not cancelled, and runs at the time the raw string gives. */
  ghost predicate LiveEntry(entry: Subscription, jobs: map<JobId, DailyJob>, cancelled: set<JobId>) {
    entry.job in jobs && entry.job !in cancelled &&
    IsTimeOfDay(entry.rawTime) &&
    jobs[entry.job].hour == Hour(entry.rawTime) && jobs[entry.job].minute == Minute(entry.rawTime)
  }

  /**
   * The invariant between the registry and the job queue: job ids below
   * `nextJob` have been handed out, every subscription has a live job at its
   * own time, and no two users share a job.
   */
  ghost predicate JobsConsistent(subscriptions: map<UserId, Subscription>, jobs: map<JobId, DailyJob>,
                                 cancelled: set<JobId>, nextJob: JobId)
  {
    (forall job :: job in jobs ==> job < nextJob) &&
    cancelled <= jobs.Keys &&
    (forall user :: user in subscriptions ==> LiveEntry(subscriptions[user], jobs, cancelled)) &&
    (forall u, v :: u in subscriptions && v in subscriptions && u != v ==>
       subscriptions[u].job != subscriptions[v].job)
  }

  /**
   * A successful subscribe keeps the invariant: the user's old job (if any)
   * is cancelled, a fresh job is scheduled at the new time, and every other
   * user's job stays live.
   */
  lemma SubscribeKeepsJobsConsistent(subscriptions: map<UserId, Subscription>, jobs: map<JobId, DailyJob>,
                                     cancelled: set<JobId>, nextJob: JobId,
                                     user: UserId, chatId: ChatId, rawTime: string)
    requires JobsConsistent(subscriptions, jobs, cancelled, nextJob)
    requires IsTimeOfDay(rawTime)
    ensures JobsConsistent(subscriptions[user := Subscription(nextJob, rawTime)],
                           jobs[nextJob := DailyJob(chatId, Hour(rawTime), Minute(rawTime))],
                           cancelled + (if user in subscriptions then {subscriptions[user].job} else {}),
                           nextJob + 1)
  {
    var subs' := subscriptions[user := Subscription(nextJob, rawTime)];
    var jobs' := jobs[nextJob := DailyJob(chatId, Hour(rawTime), Minute(rawTime))];
    var cancelled' := cancelled + (if user in subscriptions then {subscriptions[user].job} else {});
    forall u | u in subs' ensures LiveEntry(subs'[u], jobs', cancelled') {
      if u != user {
        var e := subscriptions[u];
        assert LiveEntry(e, jobs, cancelled);
        assert e.job != nextJob;
        assert user in subscriptions ==> subscriptions[user].job != e.job;
      }
    }
  }

  /** Unsubscribing keeps the invariant: the user's job is cancelled and every other job stays live. */
  lemma UnsubscribeKeepsJobsConsistent(subscriptions: map<UserId, Subscription>, jobs: map<JobId, DailyJob>,
                                       cancelled: set<JobId>, nextJob: JobId, user: UserId)
    requires JobsConsistent(subscriptions, jobs, cancelled, nextJob)
    requires user in subscriptions
    ensures JobsConsistent(subscriptions - {user}, jobs, cancelled + {subscriptions[user].job}, nextJob)
  {
    var subs' := subscriptions - {user};
    var cancelled' := cancelled + {subscriptions[user].job};
    forall u | u in subs' ensures LiveEntry(subs'[u], jobs, cancelled') {
      assert LiveEntry(subscriptions[u], jobs, cancelled);
      assert subscriptions[user].job != subscriptions[u].job;
    }
  }

  /**
   * The module-level `subscriptions` dictionary, together with what the
   * handlers change around it: the job queue, the last saved snapshot and
   * the replies sent.
   */
  class Registry {
    var subscriptions: map<UserId, Subscription>
    var saved: map<UserId, string>
    var outbox: seq<Reply>
    var nextJob: JobId
    ghost var jobs: map<JobId, DailyJob>
    ghost var cancelled: set<JobId>

    /**
     * Every subscription holds a well-formed time and a live job of its own
     * scheduled at that time; the saved snapshot mirrors the registry.
     */
    ghost predicate Valid()
      reads this
    {
      JobsConsistent(subscriptions, jobs, cancelled, nextJob) && IsSnapshotOf(saved, subscriptions)
    }

    constructor ()
      ensures Valid()
      ensures subscriptions == map[] && saved == map[] && outbox == []
      ensures jobs == map[] && cancelled == {}
    {
      subscriptions := map[];
      saved := map[];
      outbox := [];
      nextJob := 0;
      jobs := map[];
      cancelled := {};
    }

    /** `send_async`: the message goes out after those sent before it. */
    method Send(chatId: ChatId, text: string)
      modifies this`outbox
      ensures outbox == old(outbox) + [Reply(chatId, text)]
    {
      outbox := outbox + [Reply(chatId, text)];
    }

    /** `job_queue.run_daily`: a new job under an id never used before. */
    method RunDaily(chatId: ChatId, hour: nat, minute: nat) returns (job: JobId)
      requires forall j :: j in jobs ==> j < nextJob
      modifies this`nextJob, this`jobs
      ensures job == old(nextJob) && nextJob == job + 1
      ensures job !in old(jobs) && jobs == old(jobs)[job := DailyJob(chatId, hour, minute)]
    {
      job := nextJob;
      nextJob := nextJob + 1;
      jobs := jobs[job := DailyJob(chatId, hour, minute)];
    }

    /** The dictionary `save_subscriptions` builds: user id to raw time. */
    method Snapshot() returns (snapshot: map<UserId, string>)
      ensures IsSnapshotOf(snapshot, subscriptions)
    {
      snapshot := map[];
      var users := subscriptions.Keys;
      while users != {}
        invariant users <= subscriptions.Keys
        invariant snapshot.Keys == subscriptions.Keys - users
        invariant forall user :: user in snapshot ==> snapshot[user] == subscriptions[user].rawTime
        decreases |users|
      {
        MemberOfNonEmpty(users);
        var user :| user in users;
        snapshot := snapshot[user := subscriptions[user].rawTime];
        users := users - {user};
      }
    }

    /** `save_subscriptions`; the file is modelled by the `saved` field. */
    method Save()
      modifies this`saved
      ensures IsSnapshotOf(saved, subscriptions)
    {
      saved := Snapshot();
    }

    /** `subscribe_handler` for the command `/subscribe <args>` sent by `userId` in `chatId`. */
    method Subscribe(chatId: ChatId, userId: UserId, args: seq<string>)
      requires Valid()
      modifies this
      ensures Valid()
      ensures var v := SubscribeVerdict(args, StoredTime(old(subscriptions), userId));
        v.Reject? ==>
          subscriptions == old(subscriptions) && saved == old(saved) && nextJob == old(nextJob) &&
          jobs == old(jobs) && cancelled == old(cancelled) &&
          outbox == old(outbox) + [Reply(chatId, v.reply)]
      ensures var v := SubscribeVerdict(args, StoredTime(old(subscriptions), userId));
        v.Accept? ==>
          userId in subscriptions &&
          var job := subscriptions[userId].job;
          subscriptions == old(subscriptions)[userId := Subscription(job, args[0])] &&
          job == old(nextJob) && nextJob == job + 1 &&
          job !in old(jobs) && jobs == old(jobs)[job := DailyJob(chatId, v.hour, v.minute)] &&
          IsSnapshotOf(saved, subscriptions)
      ensures var v := SubscribeVerdict(args, StoredTime(old(subscriptions), userId));
        v.Accept? && userId in old(subscriptions) ==>
          cancelled == old(cancelled) + {old(subscriptions)[userId].job} &&
          outbox == old(outbox) + [Reply(chatId, Messages.SubscriptionRemoved(old(subscriptions)[userId].rawTime)),
                                   Reply(chatId, Messages.SubscriptionSuccessful(args[0]))]
      ensures var v := SubscribeVerdict(args, StoredTime(old(subscriptions), userId));
        v.Accept? && userId !in old(subscriptions) ==>
          cancelled == old(cancelled) &&
          outbox == old(outbox) + [Reply(chatId, Messages.SubscriptionSuccessful(args[0]))]
    {
      if |args| != 1 {
        Send(chatId, Messages.NoTimeArgument);
        return;
      }
      var rawTime := args[0];
      if userId in subscriptions && rawTime == subscriptions[userId].rawTime {
        Send(chatId, Messages.AlreadySubscribed(rawTime));
        return;
      }
      if !MatchesTimePattern(rawTime) {
        Send(chatId, Messages.IncorrectTimeFormat);
        return;
      }
      var hour, minute := Hour(rawTime), Minute(rawTime);
      if hour > 23 {
        Send(chatId, Messages.InvalidHour);
        return;
      }
      if minute > 59 {
        Send(chatId, Messages.InvalidMinute);
        return;
      }
      SubscribeKeepsJobsConsistent(subscriptions, jobs, cancelled, nextJob, userId, chatId, rawTime);
      if userId in subscriptions {
        var previous := subscriptions[userId];
        cancelled := cancelled + {previous.job};
        Send(chatId, Messages.SubscriptionRemoved(previous.rawTime));
      }
      var job := RunDaily(chatId, hour, minute);
      subscriptions := subscriptions[userId := Subscription(job, rawTime)];
      Save();
      Send(chatId, Messages.SubscriptionSuccessful(rawTime));
    }

    /** `unsubscribe_handler` for `/unsubscribe` sent by `userId` in `chatId`. */
    method Unsubscribe(chatId: ChatId, userId: UserId)
      requires Valid()
      modifies this
      ensures Valid()
      ensures jobs == old(jobs) && nextJob == old(nextJob)
      ensures userId !in old(subscriptions) ==>
        subscriptions == old(subscriptions) && saved == old(saved) && cancelled == old(cancelled) &&
        outbox == old(outbox) + [Reply(chatId, Messages.NotSubscribed)]
      ensures userId in old(subscriptions) ==>
        subscriptions == old(subscriptions) - {userId} &&
        cancelled == old(cancelled) + {old(subscriptions)[userId].job} &&
        IsSnapshotOf(saved, subscriptions) &&
        outbox == old(outbox) + [Reply(chatId, Messages.SubscriptionRemoved(old(subscriptions)[userId].rawTime))]
    {
      if userId !in subscriptions {
        Send(chatId, Messages.NotSubscribed);
        return;
      }
      var entry := subscriptions[userId];
      UnsubscribeKeepsJobsConsistent(subscriptions, jobs, cancelled, nextJob, userId);
      cancelled := cancelled + {entry.job};
      subscriptions := subscriptions - {userId};
      Save();
      Send(chatId, Messages.SubscriptionRemoved(entry.rawTime));
    }
  }
}
