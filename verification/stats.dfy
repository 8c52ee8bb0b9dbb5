/** Statistics kept per server: the `stats` records written after a quiz
    (repositories/stats_repository.py), the per-user projection of the
    `history` fields, and the number of quizzes taken per calendar day
    (repositories/quiz_repository.py). */
module Stats {
  import opened Common
  import opened Collection
  import opened Users

  /** The record `save_statistic` adds. */
  function StatRecord(userId: string, name: string, topic: Value, correct: Value, total: Value): (d: Doc)
    ensures d.Keys == {"user_id", "name", "topic", "correct", "total", "timestamp"}
    ensures d["user_id"] == Str(userId) && d["name"] == Str(name) && d["topic"] == topic
    ensures d["correct"] == correct && d["total"] == total && d["timestamp"] == ServerTimestamp
  {
    map["user_id" := Str(userId), "name" := Str(name), "topic" := topic,
        "correct" := correct, "total" := total, "timestamp" := ServerTimestamp]
  }

  /** `save_statistic`: `add` stores the record under the id the database
      generates; nothing else in the collection changes. */
  function SaveStatistic(stats: Coll<Doc>, freshId: string, userId: string, name: string,
                         topic: Value, correct: Value, total: Value): (r: Coll<Doc>)
    ensures Ids(r) == Ids(stats) + {freshId}
    ensures Find(r, freshId) == Some(StatRecord(userId, name, topic, correct, total))
    ensures forall k :: k != freshId ==> Find(r, k) == Find(stats, k)
    ensures Ordered(stats) ==> Ordered(r)
  {
    Put(stats, freshId, StatRecord(userId, name, topic, correct, total))
  }

  // ---------------------------------------------------------------------------
  // get_statistics_by_server

  /** The stored history, `[]` when the field is missing. */
  function History(d: Doc): Value
  {
    Get(d, "history", List([]))
  }

  /** The entry of one user: name (default "No name") and the stored history
      unchanged. */
  function UserStats(d: Doc): (e: Doc)
    ensures e.Keys == {"name", "attempts"}
    ensures e["attempts"] == History(d)
    ensures "name" in d ==> e["name"] == d["name"]
    ensures "name" !in d ==> e["name"] == Str("No name")
  {
    map["name" := Get(d, "name", Str("No name")), "attempts" := History(d)]
  }

  /** What becomes of one stored user: nothing when the history is falsy. */
  function Projected(d: Option<Doc>): Option<Doc>
  {
    match d
    case Some(u) => if Truthy(History(u)) then Some(UserStats(u)) else None
    case None => None
  }

  /** `get_statistics_by_server`: users in document order, skipping every one
      whose history is missing or falsy, keyed by document id. Nothing in the
      loop can raise on a stored document, so the `{}` of the error path is
      not reachable here. */
  function GetStatisticsByServer(users: Coll<Doc>): (r: Coll<Doc>)
    ensures Ids(r) <= Ids(users)
    ensures Ordered(users) ==> Ordered(r)
    ensures Ordered(users) ==> forall k :: Find(r, k) == Projected(Find(users, k))
    ensures forall k :: 0 <= k < |r| ==> r[k].body.Keys == {"name", "attempts"}
    decreases |users|
  {
    if |users| == 0 then []
    else
      var rest := GetStatisticsByServer(users[1..]);
      IdsHead(users);
      assert Ordered(users) ==> Ordered(users[1..]);
      assert Ordered(users) ==> users[0].id !in Ids(users[1..]) by {
        if Ordered(users) && users[0].id in Ids(users[1..]) {
          OrderedHeadBelow(users, users[0].id);
          StrLtIrreflexive(users[0].id);
        }
      }
      if Truthy(History(users[0].body)) then
        var r := [Entry(users[0].id, UserStats(users[0].body))] + rest;
        IdsHead(r);
        assert r[1..] == rest;
        assert Ordered(users) ==> Ordered(r) by {
          if Ordered(users) {
            forall k | k in Ids(rest) ensures StrLt(users[0].id, k) { OrderedHeadBelow(users, k); }
            ConsOrdered(r[0], rest);
          }
        }
        r
      else rest
  }

  // ---------------------------------------------------------------------------
  // obter_quizzes_por_periodo

  /** The ISO day of every entry whose "date" is a datetime, in order;
      entries with any other date, or none, contribute nothing. */
  function DaysOf(entries: seq<Doc>): (r: seq<string>)
    ensures |r| <= |entries|
  {
    if |entries| == 0 then []
    else
      (match Get(entries[0], "date", Null)
       case Time(day, _) => [day]
       case _ => [])
      + DaysOf(entries[1..])
  }

  lemma {:induction false} DaysOfAppend(entries: seq<Doc>, e: Doc)
    ensures DaysOf(entries + [e]) == DaysOf(entries) + DaysOf([e])
  {
    if |entries| > 0 {
      assert (entries + [e])[1..] == entries[1..] + [e];
      DaysOfAppend(entries[1..], e);
    } else {
      assert entries + [e] == [e];
    }
  }

  /** The days of one user's history; `None` when iterating it, or calling
      `.get` on one of its elements, raises. */
  function UserDays(d: Doc): Option<seq<string>>
  {
    match IterDocs(History(d))
    case None => None
    case Some(es) => Some(DaysOf(es))
  }

  /** The days of all users in document order; `None` as soon as one user's
      history raises. */
  function AllDays(users: Coll<Doc>): (r: Option<seq<string>>)
    decreases |users|
  {
    if |users| == 0 then Some([])
    else
      match (UserDays(users[0].body), AllDays(users[1..]))
      case (Some(a), Some(b)) => Some(a + b)
      case _ => None
  }

  /** The days are collected exactly when no user's history raises. */
  lemma {:induction false} AllDaysDefined(users: Coll<Doc>)
    ensures AllDays(users).Some? <==> forall i :: 0 <= i < |users| ==> UserDays(users[i].body).Some?
    decreases |users|
  {
    if |users| > 0 {
      AllDaysDefined(users[1..]);
      assert forall i :: 1 <= i < |users| ==> users[i] == users[1..][i - 1];
    }
  }

  /** The stored count of a day, 0 when absent. */
  function Count(c: Coll<nat>, day: string): nat
  {
    match Find(c, day)
    case Some(n) => n
    case None => 0
  }

  function Total(c: Coll<nat>): nat
    decreases |c|
  {
    if |c| == 0 then 0 else c[0].body + Total(c[1..])
  }

  /** Writing a count changes the total by the difference. */
  lemma {:induction false} PutTotal(c: Coll<nat>, day: string, n: nat)
    requires Ordered(c)
    ensures Total(Put(c, day, n)) == Total(c) - Count(c, day) + n
    decreases |c|
  {
    if |c| > 0 && c[0].id != day {
      assert Ordered(c[1..]);
      if StrLt(day, c[0].id) {
        BelowHeadBelowAll(day, c);
        if day in Ids(c) { StrLtIrreflexive(day); }
        assert Count(c, day) == 0;
      } else {
        PutTotal(c[1..], day, n);
      }
    }
  }

  /** `c` counts each day of `days`, as positive counts in day order. */
  ghost predicate Tally(c: Coll<nat>, days: seq<string>)
  {
    && Ordered(c)
    && Counts(c, multiset(days))
    && Positive(c)
    && Total(c) == |days|
  }

  /** `c` holds the multiplicities of `m`. */
  ghost predicate Counts(c: Coll<nat>, m: multiset<string>)
  {
    forall x :: Count(c, x) == m[x]
  }

  lemma CountsStep(c: Coll<nat>, m: multiset<string>, day: string)
    requires Counts(c, m)
    ensures Counts(Put(c, day, Count(c, day) + 1), m + multiset{day})
  {
    var r := Put(c, day, Count(c, day) + 1);
    forall x ensures Count(r, x) == (m + multiset{day})[x] {
      if x != day {
        assert Find(r, x) == Find(c, x);
      }
    }
  }

  /** Every stored count is positive. */
  ghost predicate Positive(c: Coll<nat>)
  {
    forall x :: Find(c, x).Some? ==> Find(c, x).value >= 1
  }

  lemma PositiveStep(c: Coll<nat>, day: string)
    requires Positive(c)
    ensures Positive(Put(c, day, Count(c, day) + 1))
  {
    var r := Put(c, day, Count(c, day) + 1);
    forall x | Find(r, x).Some? ensures Find(r, x).value >= 1 {
      if x != day {
        assert Find(r, x) == Find(c, x);
      }
    }
  }

  /** `quizzes_por_dia[d] += 1` for the last day: the tally of all days but
      the last becomes the tally of all. */
  function CountLast(c: Coll<nat>, days: seq<string>): (r: Coll<nat>)
    requires |days| > 0 && Tally(c, days[..|days| - 1])
    ensures Tally(r, days)
  {
    var n := |days| - 1;
    var day := days[n];
    assert days == days[..n] + [day];
    assert multiset(days) == multiset(days[..n]) + multiset{day};
    CountsStep(c, multiset(days[..n]), day);
    PositiveStep(c, day);
    PutTotal(c, day, Count(c, day) + 1);
    Put(c, day, Count(c, day) + 1)
  }

  lemma TallyEmpty(days: seq<string>)
    requires |days| == 0
    ensures Tally([], days)
  {
    assert multiset(days) == multiset{};
    assert forall day :: Count([], day) == 0;
  }

  /** `quizzes_por_dia[d] += 1` over every day in turn. */
  function CountDays(days: seq<string>): (r: Coll<nat>)
    ensures Tally(r, days)
    decreases |days|
  {
    if |days| == 0 then TallyEmpty(days); []
    else
      var n := |days| - 1;
      var prev := CountDays(days[..n]);
      CountLast(prev, days)
  }

  /** `obter_quizzes_por_periodo`: the number of history entries per ISO day
      across all users, keys in ascending order (`sorted` over the items),
      and `{}` when some history raises on iteration. */
  function ObterQuizzesPorPeriodo(users: Coll<Doc>): (r: Coll<nat>)
    ensures Ordered(r)
    ensures AllDays(users).None? ==> r == []
    ensures AllDays(users).Some? ==>
      && Total(r) == |AllDays(users).value|
      && forall day :: Count(r, day) == multiset(AllDays(users).value)[day]
    ensures forall i :: 0 <= i < |r| ==> r[i].body >= 1
  {
    match AllDays(users)
    case None => []
    case Some(days) =>
      var r := CountDays(days);
      assert forall i :: 0 <= i < |r| ==> r[i].body >= 1 by {
        forall i | 0 <= i < |r| ensures r[i].body >= 1 { FindOrdered(r, i); }
      }
      r
  }

  // ---------------------------------------------------------------------------
  // A recorded quiz is counted

  function UserAt(users: Coll<Doc>, uid: string): Doc
    requires Find(users, uid).Some?
  {
    Find(users, uid).value
  }

  lemma AllDaysCons(e: Entry<Doc>, rest: Coll<Doc>)
    ensures AllDays([e] + rest).Some? <==> UserDays(e.body).Some? && AllDays(rest).Some?
    ensures AllDays([e] + rest).Some? ==> AllDays([e] + rest).value == UserDays(e.body).value + AllDays(rest).value
  {
    assert ([e] + rest)[0] == e;
    assert ([e] + rest)[1..] == rest;
  }

  /** Replacing the first user's document. */
  lemma PutAllDaysHead(users: Coll<Doc>, d: Doc)
    requires |users| > 0
    requires AllDays(users).Some? && UserDays(d).Some?
    ensures AllDays([Entry(users[0].id, d)] + users[1..]).Some?
    ensures multiset(AllDays([Entry(users[0].id, d)] + users[1..]).value) + multiset(UserDays(users[0].body).value) ==
            multiset(AllDays(users).value) + multiset(UserDays(d).value)
  {
    assert users == [users[0]] + users[1..];
    AllDaysCons(users[0], users[1..]);
    AllDaysCons(Entry(users[0].id, d), users[1..]);
  }

  /** Replacing a later user's document, given the effect on the tail. */
  lemma PutAllDaysTail(users: Coll<Doc>, q: Coll<Doc>, gone: seq<string>, added: seq<string>)
    requires |users| > 0 && AllDays(users).Some? && AllDays(q).Some?
    requires multiset(AllDays(q).value) + multiset(gone) == multiset(AllDays(users[1..]).value) + multiset(added)
    ensures AllDays([users[0]] + q).Some?
    ensures multiset(AllDays([users[0]] + q).value) + multiset(gone) == multiset(AllDays(users).value) + multiset(added)
  {
    AllDaysCons(users[0], q);
    var h := UserDays(users[0].body).value;
    assert AllDays(users).value == h + AllDays(users[1..]).value;
    assert multiset(AllDays([users[0]] + q).value) == multiset(h) + multiset(AllDays(q).value);
    assert multiset(AllDays(users).value) == multiset(h) + multiset(AllDays(users[1..]).value);
    MultisetShift(multiset(h), multiset(AllDays(q).value), multiset(AllDays(users[1..]).value), multiset(gone), multiset(added));
  }

  lemma MultisetShift<T>(h: multiset<T>, q: multiset<T>, t: multiset<T>, g: multiset<T>, a: multiset<T>)
    requires q + g == t + a
    ensures (h + q) + g == (h + t) + a
  {
    forall x ensures ((h + q) + g)[x] == ((h + t) + a)[x] {
      assert (q + g)[x] == (t + a)[x];
    }
  }

  /** Replacing one user's document changes the collected days by exactly
      the difference between that user's old and new days. */
  lemma {:induction false} PutAllDays(users: Coll<Doc>, uid: string, d: Doc)
    requires Ordered(users) && Find(users, uid).Some?
    requires AllDays(users).Some? && UserDays(UserAt(users, uid)).Some? && UserDays(d).Some?
    ensures AllDays(Put(users, uid, d)).Some?
    ensures multiset(AllDays(Put(users, uid, d)).value) + multiset(UserDays(UserAt(users, uid)).value) ==
            multiset(AllDays(users).value) + multiset(UserDays(d).value)
    decreases |users|
  {
    if users[0].id == uid {
      assert Put(users, uid, d) == [Entry(uid, d)] + users[1..];
      PutAllDaysHead(users, d);
    } else {
      PutPastHead(users, uid, d);
      PutAllDays(users[1..], uid, d);
      PutAllDaysTail(users, Put(users[1..], uid, d), UserDays(UserAt(users, uid)).value, UserDays(d).value);
    }
  }

  /** Appending a history entry dated `day` adds `day` to the user's days. */
  lemma AppendedEntryDays(d: Doc, e: Value, day: string, clock: nat)
    requires UserDays(d).Some? && "history" in d && d["history"].List?
    requires e.Obj? && "date" in e.fields && e.fields["date"] == Time(day, clock)
    ensures UserDays(d["history" := List(d["history"].items + [e])]) == Some(UserDays(d).value + [day])
  {
    var items := d["history"].items;
    var es := IterDocs(List(items)).value;
    assert forall i :: 0 <= i < |items| ==> items[i].Obj?;
    assert IterDocs(List(items + [e])) == Some(es + [e.fields]) by {
      assert forall i :: 0 <= i < |items| ==> (items + [e])[i] == items[i];
      var r := IterDocs(List(items + [e])).value;
      assert r[|items|] == e.fields;
      assert r == es + [e.fields];
    }
    DaysOfAppend(es, e.fields);
    assert [e.fields][1..] == [];
    assert Get(e.fields, "date", Null) == Time(day, clock);
    assert DaysOf([e.fields]) == [day];
    var d' := d["history" := List(items + [e])];
    assert History(d') == List(items + [e]);
    assert UserDays(d') == Some(DaysOf(es + [e.fields]));
  }

  /** Every stored user's history iterates when all of them do. */
  lemma {:induction false} MemberDays(users: Coll<Doc>, uid: string)
    requires AllDays(users).Some? && Find(users, uid).Some?
    ensures UserDays(UserAt(users, uid)).Some?
    decreases |users|
  {
    if users[0].id != uid {
      MemberDays(users[1..], uid);
    }
  }

  /** Counting one more occurrence of `day`. */
  lemma CountOneMore(before: seq<string>, now: seq<string>, mine: seq<string>, day: string)
    requires multiset(now) + multiset(mine) == multiset(before) + multiset(mine + [day])
    ensures Count(CountDays(now), day) == Count(CountDays(before), day) + 1
    ensures forall other :: other != day ==> Count(CountDays(now), other) == Count(CountDays(before), other)
  {
    assert multiset(mine + [day]) == multiset(mine) + multiset{day};
    forall x ensures multiset(now)[x] == multiset(before)[x] + (if x == day then 1 else 0) {
      assert (multiset(now) + multiset(mine))[x] == (multiset(before) + multiset(mine + [day]))[x];
    }
  }

  /** A quiz result appended to a user's history (with a datetime date and
      not equal to an entry already there) raises that day's count by one and
      leaves every other day's count as it was. */
  lemma RecordedQuizIsCounted(users: Coll<Doc>, uid: string, day: string, clock: nat, topicId: string,
                              correct: int, total: int, types: seq<string>)
    requires Ordered(users) && Find(users, uid).Some?
    requires AllDays(users).Some?
    requires var h := History(UserAt(users, uid));
      && "history" in UserAt(users, uid) && h.List?
      && HistoryEntry(Time(day, clock), topicId, correct, total, types) !in h.items
    ensures var after := RegisterUserHistory(users, uid, Time(day, clock), topicId, correct, total, types);
      && Count(ObterQuizzesPorPeriodo(after), day) == Count(ObterQuizzesPorPeriodo(users), day) + 1
      && forall other :: other != day ==>
           Count(ObterQuizzesPorPeriodo(after), other) == Count(ObterQuizzesPorPeriodo(users), other)
  {
    var d := UserAt(users, uid);
    var e := HistoryEntry(Time(day, clock), topicId, correct, total, types);
    var d' := d["history" := List(d["history"].items + [e])];
    var after := RegisterUserHistory(users, uid, Time(day, clock), topicId, correct, total, types);
    assert after == Put(users, uid, d');
    MemberDays(users, uid);
    AppendedEntryDays(d, e, day, clock);
    PutAllDays(users, uid, d');
    CountOneMore(AllDays(users).value, AllDays(after).value, UserDays(d).value, day);
  }
}
