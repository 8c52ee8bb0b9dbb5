/** The /stats command in its two revisions. The one in bot.py reads the
    global `estadisticas` collection, groups the records by user in stream
    order and prints each user's count and last three attempts; the one in
    commands/stats_commands.py prints per-user data it is handed, and its
    permission check never refuses anyone. Every exception inside the body
    is caught and answered with the same error message, so a failure is a
    single reply here. `show` stands for Python's `str()` of a value. */
module StatsReport {
  import opened Common
  import opened Collection
  import opened Topics
  import opened Users
  import opened Stats
  import opened Commands

  const SummaryHeader: string := "\U{1F4CA} **Estad\U{ED}sticas de uso del bot:**\n"

  datatype StatsReply = StatsRefused | NoStatistics | StatsFailed | Summary(text: string)

  /** Applies `f` to every element; the first failure fails the whole. */
  function MapLines<T>(xs: seq<T>, f: T -> Result<string>): (r: Result<seq<string>>)
    ensures r.Ok? <==> forall i :: 0 <= i < |xs| ==> f(xs[i]).Ok?
    ensures r.Ok? ==> |r.value| == |xs| && forall i :: 0 <= i < |xs| ==> r.value[i] == f(xs[i]).value
    decreases |xs|
  {
    if |xs| == 0 then Ok([])
    else if f(xs[0]).Err? then Err(f(xs[0]).failure)
    else
      assert forall i :: 1 <= i < |xs| ==> xs[i] == xs[1..][i - 1];
      match MapLines(xs[1..], f)
      case Err(e) => Err(e)
      case Ok(rest) => Ok([f(xs[0]).value] + rest)
  }

  // ---------------------------------------------------------------------------
  // bot.py: grouping the `estadisticas` records

  /** The `datos` key `item.get("usuario_id")` files a record under. Which
      member of a class is the stored key does not matter: the report never
      prints it. */
  function UidOf(rec: Doc): Value
  {
    KeyClass(Get(rec, "usuario_id", Null))
  }

  /** One entry of the `datos` dict: the user id, the name taken from the
      user's first record, and the user's records. */
  datatype Group = Group(uid: Value, nombre: Value, intentos: seq<Doc>)

  function GroupUids(gs: seq<Group>): set<Value>
  {
    set g | g in gs :: g.uid
  }

  function RecordUids(records: seq<Doc>): set<Value>
  {
    set r | r in records :: UidOf(r)
  }

  /** The records of one user, in stream order: the reference the grouping
      is measured against. */
  function ByUser(records: seq<Doc>, uid: Value): (r: seq<Doc>)
    ensures |r| <= |records|
    ensures forall k :: 0 <= k < |r| ==> r[k] in records && UidOf(r[k]) == uid
    decreases |records|
  {
    if |records| == 0 then []
    else
      var n := |records| - 1;
      ByUser(records[..n], uid) + (if UidOf(records[n]) == uid then [records[n]] else [])
  }

  /** A user with no record has no records of its own. */
  lemma {:induction false} ByUserAbsent(records: seq<Doc>, uid: Value)
    requires uid !in RecordUids(records)
    ensures ByUser(records, uid) == []
    decreases |records|
  {
    if |records| > 0 {
      var n := |records| - 1;
      assert records[n] in records;
      assert RecordUids(records[..n]) <= RecordUids(records) by {
        forall x | x in records[..n] ensures x in records { }
      }
      ByUserAbsent(records[..n], uid);
    }
  }

  /** Streaming one more record extends its user's records by it. */
  lemma ByUserSnoc(records: seq<Doc>, rec: Doc, uid: Value)
    ensures ByUser(records + [rec], uid) == ByUser(records, uid) + (if UidOf(rec) == uid then [rec] else [])
  {
    var all := records + [rec];
    assert all[..|all| - 1] == records;
  }

  /** The groups with `rec` appended to the records of every group of its
      user. */
  function JoinGroup(gs: seq<Group>, rec: Doc): (r: seq<Group>)
    ensures |r| == |gs|
    ensures forall k :: 0 <= k < |gs| ==> r[k].uid == gs[k].uid && r[k].nombre == gs[k].nombre
    ensures forall k :: 0 <= k < |gs| ==>
      r[k].intentos == gs[k].intentos + (if gs[k].uid == UidOf(rec) then [rec] else [])
  {
    seq(|gs|, k requires 0 <= k < |gs| =>
      if gs[k].uid == UidOf(rec) then gs[k].(intentos := gs[k].intentos + [rec]) else gs[k])
  }

  /** One pass of the loop: the record joins the group of its user, or opens
      a new group at the end, named after the record's "nombre". */
  function AddRecord(gs: seq<Group>, rec: Doc): seq<Group>
  {
    if UidOf(rec) in GroupUids(gs) then JoinGroup(gs, rec)
    else gs + [Group(UidOf(rec), Get(rec, "nombre", Null), [rec])]
  }

  /** No two groups share a user id. */
  predicate DistinctUids(gs: seq<Group>)
  {
    forall k, l :: 0 <= k < l < |gs| ==> gs[k].uid != gs[l].uid
  }

  /** Each group holds exactly its user's records and is named after the
      first of them. */
  predicate Faithful(records: seq<Doc>, gs: seq<Group>)
  {
    forall k :: 0 <= k < |gs| ==>
      && gs[k].intentos == ByUser(records, gs[k].uid)
      && |gs[k].intentos| > 0
      && gs[k].nombre == Get(gs[k].intentos[0], "nombre", Null)
  }

  /** The grouping facts for one prefix of the stream. */
  predicate GroupsOf(records: seq<Doc>, gs: seq<Group>)
  {
    && DistinctUids(gs)
    && GroupUids(gs) == RecordUids(records)
    && Faithful(records, gs)
  }

  lemma RecordUidsAppend(records: seq<Doc>, rec: Doc)
    ensures RecordUids(records + [rec]) == RecordUids(records) + {UidOf(rec)}
  {
    assert forall r :: r in records + [rec] <==> r in records || r == rec;
  }

  lemma JoinGroupUids(gs: seq<Group>, rec: Doc)
    ensures GroupUids(JoinGroup(gs, rec)) == GroupUids(gs)
  {
    var r := JoinGroup(gs, rec);
    forall v | v in GroupUids(gs) ensures v in GroupUids(r) {
      var g :| g in gs && g.uid == v;
      var k :| 0 <= k < |gs| && gs[k] == g;
      assert r[k] in r;
    }
  }

  lemma JoinGroupFaithful(records: seq<Doc>, rec: Doc, gs: seq<Group>)
    requires Faithful(records, gs)
    ensures Faithful(records + [rec], JoinGroup(gs, rec))
  {
    var r := JoinGroup(gs, rec);
    forall k | 0 <= k < |r|
      ensures r[k].intentos == ByUser(records + [rec], r[k].uid)
      ensures |r[k].intentos| > 0 && r[k].intentos[0] == gs[k].intentos[0]
    {
      ByUserSnoc(records, rec, gs[k].uid);
    }
  }

  /** A group whose user is already in the stream keeps its records when a
      record of a new user arrives. */
  lemma OldGroupUntouched(records: seq<Doc>, rec: Doc, g: Group)
    requires g.intentos == ByUser(records, g.uid) && |g.intentos| > 0
    requires UidOf(rec) !in RecordUids(records)
    ensures g.intentos == ByUser(records + [rec], g.uid)
  {
    var first := g.intentos[0];
    assert first in records && UidOf(first) == g.uid;
    assert g.uid in RecordUids(records);
    ByUserSnoc(records, rec, g.uid);
  }

  lemma NewGroupFaithful(records: seq<Doc>, rec: Doc, gs: seq<Group>)
    requires Faithful(records, gs) && UidOf(rec) !in RecordUids(records)
    ensures Faithful(records + [rec], gs + [Group(UidOf(rec), Get(rec, "nombre", Null), [rec])])
  {
    var g := Group(UidOf(rec), Get(rec, "nombre", Null), [rec]);
    var r := gs + [g];
    forall k | 0 <= k < |r|
      ensures && r[k].intentos == ByUser(records + [rec], r[k].uid)
              && |r[k].intentos| > 0
              && r[k].nombre == Get(r[k].intentos[0], "nombre", Null)
    {
      if k < |gs| {
        assert r[k] == gs[k];
        OldGroupUntouched(records, rec, gs[k]);
      } else {
        assert r[k] == g;
        ByUserSnoc(records, rec, g.uid);
        ByUserAbsent(records, g.uid);
      }
    }
  }

  lemma NewGroupDistinct(rec: Doc, gs: seq<Group>)
    requires DistinctUids(gs) && UidOf(rec) !in GroupUids(gs)
    ensures DistinctUids(gs + [Group(UidOf(rec), Get(rec, "nombre", Null), [rec])])
    ensures GroupUids(gs + [Group(UidOf(rec), Get(rec, "nombre", Null), [rec])]) == GroupUids(gs) + {UidOf(rec)}
  {
    var r := gs + [Group(UidOf(rec), Get(rec, "nombre", Null), [rec])];
    forall k | 0 <= k < |gs| ensures gs[k].uid != UidOf(rec) { assert gs[k] in gs; }
    assert forall g :: g in r <==> g in gs || g == r[|gs|];
  }

  /** Adding the next record keeps the grouping facts. */
  lemma AddRecordKeeps(records: seq<Doc>, rec: Doc, gs: seq<Group>)
    requires GroupsOf(records, gs)
    ensures GroupsOf(records + [rec], AddRecord(gs, rec))
  {
    RecordUidsAppend(records, rec);
    if UidOf(rec) in GroupUids(gs) {
      JoinGroupUids(gs, rec);
      JoinGroupFaithful(records, rec, gs);
    } else {
      NewGroupDistinct(rec, gs);
      NewGroupFaithful(records, rec, gs);
    }
  }

  /** The `datos` dict of bot.py after streaming `records`, as its items in
      insertion order. */
  function Grouped(records: seq<Doc>): (gs: seq<Group>)
    ensures GroupsOf(records, gs)
    decreases |records|
  {
    if |records| == 0 then []
    else
      var n := |records| - 1;
      var prev := Grouped(records[..n]);
      assert records[..n] + [records[n]] == records;
      AddRecordKeeps(records[..n], records[n], prev);
      AddRecord(prev, records[n])
  }

  /** A record whose user id is `1` and one whose user id is `True` share
      one group. */
  lemma OneAndTrueShareAGroup(a: Doc, b: Doc)
    requires Get(a, "usuario_id", Null) == Int(1) && Get(b, "usuario_id", Null) == Bool(true)
    ensures |Grouped([a, b])| == 1 && Grouped([a, b])[0].intentos == [a, b]
  {
    assert [a, b][..1] == [a];
    assert [a][..0] == [];
    var g := Group(Int(1), Get(a, "nombre", Null), [a]);
    assert Grouped([a]) == [g];
    assert UidOf(b) in GroupUids([g]);
    assert Grouped([a, b]) == JoinGroup([g], b);
  }

  /** The group a record falls into. */
  lemma GroupOf(records: seq<Doc>, i: nat) returns (k: nat)
    requires i < |records|
    ensures k < |Grouped(records)| && Grouped(records)[k].uid == UidOf(records[i])
    ensures Grouped(records)[k].intentos == ByUser(records, UidOf(records[i]))
    ensures forall l :: 0 <= l < |Grouped(records)| && l != k ==> Grouped(records)[l].uid != UidOf(records[i])
  {
    var gs := Grouped(records);
    assert UidOf(records[i]) in RecordUids(records);
    var g :| g in gs && g.uid == UidOf(records[i]);
    k :| 0 <= k < |gs| && gs[k] == g;
    forall l | 0 <= l < |gs| && l != k ensures gs[l].uid != gs[k].uid {
      if l < k { } else { }
    }
  }

  /** A record that opened a group. */
  lemma RecordOf(records: seq<Doc>, k: nat) returns (i: nat)
    requires k < |Grouped(records)|
    ensures i < |records| && UidOf(records[i]) == Grouped(records)[k].uid
  {
    var gs := Grouped(records);
    assert gs[k].uid in RecordUids(records);
    var rec :| rec in records && UidOf(rec) == gs[k].uid;
    i :| 0 <= i < |records| && records[i] == rec;
  }

  // ---------------------------------------------------------------------------
  // bot.py: the summary

  /** The fields the summary prints of an attempt. */
  predicate HasBotKeys(intento: Doc)
  {
    "tema" in intento && "correctas" in intento && "total" in intento
  }

  /** "  • {tema}: {correctas}/{total}"; a missing key raises KeyError. */
  function AttemptLineBot(intento: Doc, show: Value -> string): (r: Result<string>)
    ensures r.Ok? <==> HasBotKeys(intento)
    ensures r.Ok? ==> r.value == "\n  \U{2022} " + show(intento["tema"]) + ": " + show(intento["correctas"]) + "/" + show(intento["total"])
  {
    if HasBotKeys(intento) then
      Ok("\n  \U{2022} " + show(intento["tema"]) + ": " + show(intento["correctas"]) + "/" + show(intento["total"]))
    else Err(KeyError)
  }

  /** "\n👤 {nombre}: {count} intento(s)" */
  function UserLine(nombre: string, count: nat): string
  {
    "\n\U{1F464} " + nombre + ": " + NatToString(count) + " intento(s)"
  }

  /** The last three records of a user carry the printed fields. */
  predicate UserPrintable(records: seq<Doc>, uid: Value)
  {
    forall j :: 0 <= j < |LastN(ByUser(records, uid), 3)| ==> HasBotKeys(LastN(ByUser(records, uid), 3)[j])
  }

  /** Every user's last three records carry the printed fields. */
  predicate PrintableBot(records: seq<Doc>)
  {
    forall i :: 0 <= i < |records| ==> UserPrintable(records, UidOf(records[i]))
  }

  /** The printed lines of attempts that all carry the printed fields. */
  function AttemptLinesBot(shown: seq<Doc>, show: Value -> string): (r: seq<string>)
    requires forall j :: 0 <= j < |shown| ==> HasBotKeys(shown[j])
    ensures |r| == |shown|
    ensures forall j :: 0 <= j < |shown| ==> Ok(r[j]) == AttemptLineBot(shown[j], show)
  {
    seq(|shown|, j requires 0 <= j < |shown| => AttemptLineBot(shown[j], show).value)
  }

  /** The printed blocks of groups that all print. */
  function UserBlocksBot(gs: seq<Group>, show: Value -> string): (r: seq<string>)
    requires forall k :: 0 <= k < |gs| ==> UserBlockBot(gs[k], show).Ok?
    ensures |r| == |gs|
    ensures forall k :: 0 <= k < |gs| ==> Ok(r[k]) == UserBlockBot(gs[k], show)
  {
    seq(|gs|, k requires 0 <= k < |gs| => UserBlockBot(gs[k], show).value)
  }

  /** The lines of one user: the count of all its records, then its last
      three records in order. */
  function UserBlockBot(g: Group, show: Value -> string): (r: Result<string>)
    ensures r.Ok? <==> forall j :: 0 <= j < |LastN(g.intentos, 3)| ==> HasBotKeys(LastN(g.intentos, 3)[j])
    ensures r.Ok? ==> r.value == UserLine(show(g.nombre), |g.intentos|) + Concat(AttemptLinesBot(LastN(g.intentos, 3), show))
  {
    match MapLines(LastN(g.intentos, 3), x => AttemptLineBot(x, show))
    case Err(e) => Err(e)
    case Ok(lines) =>
      assert lines == AttemptLinesBot(LastN(g.intentos, 3), show);
      Ok(UserLine(show(g.nombre), |g.intentos|) + Concat(lines))
  }

  /** Printability read off the groups instead of the records. */
  lemma PrintableIffGroups(records: seq<Doc>, show: Value -> string)
    ensures PrintableBot(records) <==>
      forall k :: 0 <= k < |Grouped(records)| ==> UserBlockBot(Grouped(records)[k], show).Ok?
  {
    var gs := Grouped(records);
    if PrintableBot(records) {
      forall k | 0 <= k < |gs| ensures UserBlockBot(gs[k], show).Ok? {
        var i := RecordOf(records, k);
        assert UserPrintable(records, UidOf(records[i]));
      }
    } else {
      var i :| 0 <= i < |records| && !UserPrintable(records, UidOf(records[i]));
      var k := GroupOf(records, i);
      assert !UserBlockBot(gs[k], show).Ok?;
    }
  }

  /** `estadisticas` of bot.py over the stream of the `estadisticas`
      collection. Only someone holding a role named "faculty" in any letter
      case gets past the check, and the check comes before any read. */
  function EstadisticasBot(roles: seq<string>, records: seq<Doc>, show: Value -> string): (r: StatsReply)
    ensures r == StatsRefused <==> !HasRole(roles, ProfessorRole)
    ensures r == NoStatistics <==> HasRole(roles, ProfessorRole) && records == []
    ensures HasRole(roles, ProfessorRole) && (exists i :: 0 <= i < |records| && !Hashable(UidOf(records[i]))) ==>
      r == StatsFailed
    ensures HasRole(roles, ProfessorRole) && (forall i :: 0 <= i < |records| ==> Hashable(UidOf(records[i]))) ==>
      (r == StatsFailed <==> !PrintableBot(records))
    ensures r.Summary? ==> SummaryHeader <= r.text
    ensures r.Summary? ==>
      var gs := Grouped(records);
      && |gs| > 0
      && (forall k :: 0 <= k < |gs| ==> UserBlockBot(gs[k], show).Ok?)
      && r.text == SummaryHeader + Concat(UserBlocksBot(gs, show))
  {
    if !HasRole(roles, ProfessorRole) then StatsRefused
    else if exists i :: 0 <= i < |records| && !Hashable(UidOf(records[i])) then StatsFailed
    else
      var gs := Grouped(records);
      if |gs| == 0 then
        NoStatistics
      else
        assert records != [];
        PrintableIffGroups(records, show);
        if exists k :: 0 <= k < |gs| && UserBlockBot(gs[k], show).Err? then StatsFailed
        else Summary(SummaryHeader + Concat(UserBlocksBot(gs, show)))
  }

  /** A text at the start of one block occurs in the joined message. */
  lemma BlockStartOccurs(header: string, blocks: seq<string>, k: nat, line: string, rest: string)
    requires k < |blocks| && blocks[k] == line + rest
    ensures IsSubstring(line, header + Concat(blocks))
  {
    ConcatSplitTwice(blocks, k, k + 1);
    assert blocks[k..k + 1] == [blocks[k]];
    var before := header + Concat(blocks[..k]);
    var after := Concat(blocks[k + 1..]);
    assert header + Concat(blocks) == before + (line + (rest + after));
    SubstringOfConcat(before, line, rest + after);
  }

  /** Every user with a record has its line in the summary, with its number
      of records and the name from its first record. */
  lemma SummaryListsEveryUser(roles: seq<string>, records: seq<Doc>, show: Value -> string, i: nat)
    requires i < |records|
    ensures EstadisticasBot(roles, records, show).Summary? ==>
      var mine := ByUser(records, UidOf(records[i]));
      && |mine| > 0
      && IsSubstring(UserLine(show(Get(mine[0], "nombre", Null)), |mine|), EstadisticasBot(roles, records, show).text)
  {
    if EstadisticasBot(roles, records, show).Summary? {
      var gs := Grouped(records);
      var k := GroupOf(records, i);
      var blocks := UserBlocksBot(gs, show);
      var line := UserLine(show(gs[k].nombre), |gs[k].intentos|);
      var rest := Concat(AttemptLinesBot(LastN(gs[k].intentos, 3), show));
      assert Ok(blocks[k]) == UserBlockBot(gs[k], show);
      BlockStartOccurs(SummaryHeader, blocks, k, line, rest);
    }
  }

  // ---------------------------------------------------------------------------
  // commands/stats_commands.py

  predicate Numeric(v: Value)
  {
    v.Int? || v.Bool?
  }

  function AsInt(v: Value): int
    requires Numeric(v)
  {
    if v.Int? then v.i else if v.b then 1 else 0
  }

  /** Python's `a + b` on stored values: numbers (booleans count as 0 and 1)
      add, strings and lists concatenate, anything else raises TypeError. */
  function PyAdd(a: Value, b: Value): (r: Result<Value>)
    ensures Numeric(a) && Numeric(b) ==> r == Ok(Int(AsInt(a) + AsInt(b)))
    ensures a.Str? && b.Str? ==> r == Ok(Str(a.s + b.s))
    ensures a.List? && b.List? ==> r == Ok(List(a.items + b.items))
    ensures r.Err? <==> !(Numeric(a) && Numeric(b)) && !(a.Str? && b.Str?) && !(a.List? && b.List?)
    ensures r.Err? ==> r.failure == TypeError
  {
    if Numeric(a) && Numeric(b) then Ok(Int(AsInt(a) + AsInt(b)))
    else if a.Str? && b.Str? then Ok(Str(a.s + b.s))
    else if a.List? && b.List? then Ok(List(a.items + b.items))
    else Err(TypeError)
  }

  /** "  • {topic_id}: {success}/{success + failures}", with "Desconocido"
      and 0 for missing fields; an element that is not a dict has no `get`. */
  function AttemptLineCmd(intento: Value, show: Value -> string): (r: Result<string>)
    ensures !intento.Obj? ==> r.Err?
    ensures intento.Obj? ==>
      var s := Get(intento.fields, "success", Int(0));
      var f := Get(intento.fields, "failures", Int(0));
      && (r.Ok? <==> PyAdd(s, f).Ok?)
      && (r.Ok? ==> r.value == "\n  \U{2022} " + show(Get(intento.fields, "topic_id", Str("Desconocido"))) + ": " +
                               show(s) + "/" + show(PyAdd(s, f).value))
  {
    if !intento.Obj? then Err(AttributeError)
    else
      var s := Get(intento.fields, "success", Int(0));
      var f := Get(intento.fields, "failures", Int(0));
      match PyAdd(s, f)
      case Err(e) => Err(e)
      case Ok(sum) => Ok("\n  \U{2022} " + show(Get(intento.fields, "topic_id", Str("Desconocido"))) + ": " + show(s) + "/" + show(sum))
  }

  /** An entry written by `register_user_history` prints its topic and
      `correct/total`: successes plus failures give back the total. */
  lemma RecordedEntryShowsScore(date: Value, topicId: string, correct: int, total: int, types: seq<string>,
                                show: Value -> string)
    ensures AttemptLineCmd(HistoryEntry(date, topicId, correct, total, types), show)
         == Ok("\n  \U{2022} " + show(Str(topicId)) + ": " + show(Int(correct)) + "/" + show(Int(total)))
  {
  }

  /** `info['intentos'][-3:]` followed by the lines of those attempts. A
      list gives its last three elements; a string gives characters, which
      have no `get`, unless it is empty; a dict cannot be sliced. */
  function RecentLinesCmd(intentos: Value, show: Value -> string): (r: Result<seq<string>>)
    ensures intentos.List? ==>
      var shown := LastN(intentos.items, 3);
      && (r.Ok? <==> forall j :: 0 <= j < |shown| ==> AttemptLineCmd(shown[j], show).Ok?)
      && (r.Ok? ==> |r.value| == |shown| &&
                    forall j :: 0 <= j < |shown| ==> r.value[j] == AttemptLineCmd(shown[j], show).value)
    ensures intentos.Str? ==> (r == Ok([]) <==> intentos.s == "")
    ensures !intentos.List? && !intentos.Str? ==> r.Err?
  {
    match intentos
    case List(xs) => MapLines(LastN(xs, 3), x => AttemptLineCmd(x, show))
    case Str(s) => if s == "" then Ok([]) else Err(AttributeError)
    case _ => Err(TypeError)
  }

  /** One user's lines: "👤 {nombre}: {len(intentos)} intento(s)" and its
      recent attempts. `info` must be a dict holding both keys and
      `intentos` must have a length. */
  function UserBlockCmd(info: Value, show: Value -> string): (r: Result<string>)
    ensures r.Ok? ==>
      && info.Obj? && "nombre" in info.fields && "intentos" in info.fields
      && Len(info.fields["intentos"]).Some?
      && RecentLinesCmd(info.fields["intentos"], show).Ok?
      && r.value == UserLine(show(info.fields["nombre"]), Len(info.fields["intentos"]).value)
                    + Concat(RecentLinesCmd(info.fields["intentos"], show).value)
    ensures (&& info.Obj? && "nombre" in info.fields && "intentos" in info.fields
             && Len(info.fields["intentos"]).Some? && RecentLinesCmd(info.fields["intentos"], show).Ok?) ==> r.Ok?
  {
    if !info.Obj? then Err(TypeError)
    else if "nombre" !in info.fields || "intentos" !in info.fields then Err(KeyError)
    else
      match Len(info.fields["intentos"])
      case None => Err(TypeError)
      case Some(n) =>
        match RecentLinesCmd(info.fields["intentos"], show)
        case Err(e) => Err(e)
        case Ok(lines) => Ok(UserLine(show(info.fields["nombre"]), n) + Concat(lines))
  }

  /** The printed blocks of per-user entries that all print. */
  function UserBlocksCmd(items: seq<(Value, Value)>, show: Value -> string): (r: seq<string>)
    requires forall k :: 0 <= k < |items| ==> UserBlockCmd(items[k].1, show).Ok?
    ensures |r| == |items|
    ensures forall k :: 0 <= k < |items| ==> Ok(r[k]) == UserBlockCmd(items[k].1, show)
  {
    seq(|items|, k requires 0 <= k < |items| => UserBlockCmd(items[k].1, show).value)
  }

  /** `estadisticas` of commands/stats_commands.py. `datos` is what the
      repository call returned, as the dict's items in order, or the
      exception it raised. The gate `if not is_professor:` tests the
      imported function itself, which is always truthy, so `roles` never
      matter and nobody is refused. */
  function EstadisticasCmd(roles: seq<string>, datos: Result<seq<(Value, Value)>>, show: Value -> string): (r: StatsReply)
    ensures r != StatsRefused
    ensures datos.Err? ==> r == StatsFailed
    ensures r == NoStatistics <==> datos == Ok([])
    ensures datos.Ok? && datos.value != [] ==>
      (r.Summary? <==> forall k :: 0 <= k < |datos.value| ==> UserBlockCmd(datos.value[k].1, show).Ok?)
    ensures r.Summary? ==> SummaryHeader <= r.text
    ensures r.Summary? ==>
      && datos.Ok? && |datos.value| > 0
      && (forall k :: 0 <= k < |datos.value| ==> UserBlockCmd(datos.value[k].1, show).Ok?)
      && r.text == SummaryHeader + Concat(UserBlocksCmd(datos.value, show))
  {
    match datos
    case Err(_) => StatsFailed
    case Ok(items) =>
      if items == [] then NoStatistics
      else
        match MapLines(items, (item: (Value, Value)) => UserBlockCmd(item.1, show))
        case Err(_) => StatsFailed
        case Ok(blocks) =>
          assert blocks == UserBlocksCmd(items, show);
          Summary(SummaryHeader + Concat(blocks))
  }

  /** A student is refused by bot.py's /stats and served by this one. */
  lemma StudentsPassOnlyTheCommandGate(roles: seq<string>, records: seq<Doc>,
                                       datos: Result<seq<(Value, Value)>>, show: Value -> string)
    requires forall i :: 0 <= i < |roles| ==> Lower(roles[i]) != ProfessorRole
    ensures EstadisticasBot(roles, records, show) == StatsRefused
    ensures EstadisticasCmd(roles, datos, show) != StatsRefused
  {
  }

  /** The per-user entries `get_statistics_by_server` produces carry "name"
      and "attempts", not the "nombre" and "intentos" this command reads, so
      handing it that projection always ends in the error reply. */
  lemma RepositoryShapeNeverPrints(roles: seq<string>, users: Coll<Doc>, show: Value -> string)
    requires GetStatisticsByServer(users) != []
    ensures var stats := GetStatisticsByServer(users);
            var items := seq(|stats|, k requires 0 <= k < |stats| => (Str(stats[k].id), Obj(stats[k].body)));
      EstadisticasCmd(roles, Ok(items), show) == StatsFailed
  {
    var stats := GetStatisticsByServer(users);
    var items := seq(|stats|, k requires 0 <= k < |stats| => (Str(stats[k].id), Obj(stats[k].body)));
    assert stats[0] in stats;
    assert !UserBlockCmd(items[0].1, show).Ok?;
  }
}
