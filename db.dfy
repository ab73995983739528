/**
 * The persistent store, as the session handler uses it: an append-only message
 * log with store-assigned, strictly increasing ids, and a presence table keyed by
 * display name. The SQL engine is not modelled; each table is an in-memory value
 * and each query is the function it computes.
 */
module MessageStore {
  import opened Wrappers
  import opened ChatProtocol

  // ---------------------------------------------------------------------
  // Message log

  /**
   * One row of `messages`. `createdAt` is the opaque creation timestamp;
   * `messageType` is absent for rows whose insert did not give one.
   */
  datatype Row = Row(id: nat, clientId: string, content: string, createdAt: string, messageType: Option<string>)

  /** Ids grow strictly with the position in the log. */
  predicate IdsIncreasing(rows: seq<Row>)
  {
    forall i, j :: 0 <= i < j < |rows| ==> rows[i].id < rows[j].id
  }

  predicate IdsDecreasing(rows: seq<Row>)
  {
    forall i, j :: 0 <= i < j < |rows| ==> rows[i].id > rows[j].id
  }

  function Reverse<T>(s: seq<T>): (r: seq<T>)
    ensures |r| == |s|
    ensures forall i :: 0 <= i < |s| ==> r[i] == s[|s| - 1 - i]
  {
    if s == [] then [] else Reverse(s[1..]) + [s[0]]
  }

  /** The number of rows `LIMIT limit` keeps out of `n`; SQLite reads a negative limit as "no limit". */
  function LimitCount(limit: int, n: nat): (k: nat)
    ensures k <= n
    ensures 0 <= limit ==> k <= limit
    ensures k == n || k == limit
  {
    if limit < 0 || n <= limit then n else limit
  }

  /** `ORDER BY id DESC`: over a log with increasing ids, the newest row first. */
  function OrderByIdDesc(rows: seq<Row>): (r: seq<Row>)
    requires IdsIncreasing(rows)
    ensures IdsDecreasing(r)
    ensures multiset(r) == multiset(rows)
  {
    ReverseMultiset(rows);
    Reverse(rows)
  }

  lemma {:induction false} ReverseMultiset<T>(s: seq<T>)
    ensures multiset(Reverse(s)) == multiset(s)
  {
    if s != [] {
      ReverseMultiset(s[1..]);
      assert s == [s[0]] + s[1..];
    }
  }

  /** The rows of `get_recent_messages(limit)`: `ORDER BY id DESC LIMIT limit`, then reversed. */
  function RecentMessages(rows: seq<Row>, limit: int): seq<Row>
    requires IdsIncreasing(rows)
  {
    Reverse(OrderByIdDesc(rows)[..LimitCount(limit, |rows|)])
  }

  /**
   * The recent messages are the last `min(limit, |log|)` rows of the log (all of
   * them for a negative limit), oldest first: the rows with the largest ids, in
   * ascending id order.
   */
  lemma RecentMessagesIsTail(rows: seq<Row>, limit: int)
    requires IdsIncreasing(rows)
    ensures RecentMessages(rows, limit) == rows[|rows| - LimitCount(limit, |rows|)..]
    ensures IdsIncreasing(RecentMessages(rows, limit))
    ensures forall i, j :: 0 <= i < |rows| - LimitCount(limit, |rows|) <= j < |rows| ==> rows[i].id < rows[j].id
  {
    var k := LimitCount(limit, |rows|);
    var r := RecentMessages(rows, limit);
    forall i | 0 <= i < k
      ensures r[i] == rows[|rows| - k + i]
    {
      assert r[i] == OrderByIdDesc(rows)[k - 1 - i];
    }
  }

  /** `LIMIT 1` yields exactly the newest row. */
  lemma RecentMessagesNewest(rows: seq<Row>)
    requires IdsIncreasing(rows) && rows != []
    ensures RecentMessages(rows, 1) == [rows[|rows| - 1]]
  {
    RecentMessagesIsTail(rows, 1);
  }

  /** Right after an insert, the recent messages end with the inserted row. */
  lemma RecentMessagesAfterInsert(rows: seq<Row>, row: Row, limit: int)
    requires IdsIncreasing(rows + [row]) && limit != 0
    ensures var r := RecentMessages(rows + [row], limit); r != [] && r[|r| - 1] == row
  {
    RecentMessagesIsTail(rows + [row], limit);
  }

  /** The message type a replayed row carries: `msg.get("message_type", "text")`. */
  function RowMessageType(row: Row): (t: string)
    ensures row.messageType.None? ==> t == "text"
    ensures row.messageType.Some? ==> t == row.messageType.value
  {
    match row.messageType
    case Some(t) => t
    case None => "text"
  }

  /** The `messages` table. */
  class MessageLog {
    var rows: seq<Row>
    /** The id the next insert receives (`AUTOINCREMENT` never reuses an id). */
    var nextId: nat

    ghost predicate Valid()
      reads this
    {
      && IdsIncreasing(rows)
      && 1 <= nextId
      && forall i :: 0 <= i < |rows| ==> rows[i].id < nextId
    }

    /** The freshly created, empty table. */
    constructor ()
      ensures Valid()
      ensures rows == []
    {
      rows := [];
      nextId := 1;
    }

    /** `insert_message(client_id, content, message_type)`: appends one row stamped `createdAt`. */
    method InsertMessage(clientId: string, content: string, createdAt: string, messageType: Option<string> := None)
      requires Valid()
      modifies this
      ensures Valid()
      ensures rows == old(rows) + [Row(old(nextId), clientId, content, createdAt, messageType)]
      ensures forall i :: 0 <= i < |old(rows)| ==> rows[i].id < rows[|rows| - 1].id
      ensures nextId == old(nextId) + 1
    {
      rows := rows + [Row(nextId, clientId, content, createdAt, messageType)];
      nextId := nextId + 1;
    }

    /** `get_recent_messages(limit)`: reads the log without changing it. */
    function GetRecentMessages(limit: int := 20): (r: seq<Row>)
      reads this
      requires Valid()
      ensures |r| == LimitCount(limit, |rows|)
      ensures 0 <= limit ==> |r| <= limit
      ensures r == rows[|rows| - |r|..]
      ensures IdsIncreasing(r)
    {
      RecentMessagesIsTail(rows, limit);
      RecentMessages(rows, limit)
    }
  }

  // ---------------------------------------------------------------------
  // Presence table

  /** Lexicographic order of strings by code point. */
  predicate StrLess(a: string, b: string)
  {
    if a == [] then b != []
    else if b == [] then false
    else if a[0] != b[0] then a[0] < b[0]
    else StrLess(a[1..], b[1..])
  }

  lemma {:induction false} StrLessIrreflexive(a: string)
    ensures !StrLess(a, a)
  {
    if a != [] {
      StrLessIrreflexive(a[1..]);
    }
  }

  lemma {:induction false} StrLessAsymmetric(a: string, b: string)
    requires StrLess(a, b)
    ensures !StrLess(b, a)
  {
    if a != [] && b != [] && a[0] == b[0] {
      StrLessAsymmetric(a[1..], b[1..]);
    }
  }

  lemma {:induction false} StrLessTransitive(a: string, b: string, c: string)
    requires StrLess(a, b) && StrLess(b, c)
    ensures StrLess(a, c)
  {
    if a != [] && b != [] && c != [] && a[0] == b[0] && b[0] == c[0] {
      StrLessTransitive(a[1..], b[1..], c[1..]);
    }
  }

  lemma {:induction false} StrLessTotal(a: string, b: string)
    requires a != b
    ensures StrLess(a, b) || StrLess(b, a)
  {
    if a != [] && b != [] && a[0] == b[0] {
      assert a == [a[0]] + a[1..] && b == [b[0]] + b[1..];
      StrLessTotal(a[1..], b[1..]);
    }
  }

  /** The display name `a` is listed before `b`: online users first, then by name. */
  predicate RosterBefore(online: map<string, bool>, a: string, b: string)
    requires a in online && b in online
  {
    (online[a] && !online[b]) || (online[a] == online[b] && StrLess(a, b))
  }

  lemma RosterBeforeAsymmetric(online: map<string, bool>, a: string, b: string)
    requires a in online && b in online && RosterBefore(online, a, b)
    ensures !RosterBefore(online, b, a)
  {
    if online[a] == online[b] {
      StrLessAsymmetric(a, b);
    }
  }

  lemma RosterBeforeTransitive(online: map<string, bool>, a: string, b: string, c: string)
    requires a in online && b in online && c in online
    requires RosterBefore(online, a, b) && RosterBefore(online, b, c)
    ensures RosterBefore(online, a, c)
  {
    if online[a] == online[b] == online[c] {
      StrLessTransitive(a, b, c);
    }
  }

  lemma RosterBeforeTotal(online: map<string, bool>, a: string, b: string)
    requires a in online && b in online && a != b
    ensures RosterBefore(online, a, b) || RosterBefore(online, b, a)
  {
    StrLessTotal(a, b);
  }

  /** `x` comes before every other name of `s`. */
  predicate IsFirst(online: map<string, bool>, s: set<string>, x: string)
    requires s <= online.Keys
  {
    x in s && forall y :: y in s && y != x ==> RosterBefore(online, x, y)
  }

  /** Every non-empty set of names has a first one. */
  lemma {:induction false} FirstExists(online: map<string, bool>, s: set<string>)
    requires s <= online.Keys && s != {}
    ensures exists x :: IsFirst(online, s, x)
    decreases s
  {
    var y :| y in s;
    if s == {y} {
      assert IsFirst(online, s, y);
    } else {
      FirstExists(online, s - {y});
      var m :| IsFirst(online, s - {y}, m);
      if RosterBefore(online, y, m) {
        forall z | z in s && z != y
          ensures RosterBefore(online, y, z)
        {
          if z != m {
            RosterBeforeTransitive(online, y, m, z);
          }
        }
        assert IsFirst(online, s, y);
      } else {
        RosterBeforeTotal(online, y, m);
        assert IsFirst(online, s, m);
      }
    }
  }

  /** There is only one first name. */
  lemma FirstUnique(online: map<string, bool>, s: set<string>)
    requires s <= online.Keys
    ensures forall x, x' :: IsFirst(online, s, x) && IsFirst(online, s, x') ==> x == x'
  {
    forall x, x' | IsFirst(online, s, x) && IsFirst(online, s, x')
      ensures x == x'
    {
      if x != x' {
        RosterBeforeAsymmetric(online, x, x');
      }
    }
  }

  /** `names` lists each name of `s` once, in roster order. */
  ghost predicate IsRosterOf(online: map<string, bool>, s: set<string>, names: seq<string>)
    requires s <= online.Keys
  {
    && (forall n :: n in names <==> n in s)
    && (forall i, j :: 0 <= i < j < |names| ==> names[i] in online && names[j] in online && RosterBefore(online, names[i], names[j]))
  }

  /**
   * The roster order of `get_all_users`, which `backend/db.py` does not define;
   * the model assumes the names of `s` with online ones first, each group
   * ordered by code point.
   */
  function OrderedNames(online: map<string, bool>, s: set<string>): (names: seq<string>)
    requires s <= online.Keys
    ensures IsRosterOf(online, s, names)
    ensures |names| == |s|
    decreases s
  {
    if s == {} then []
    else
      FirstExists(online, s);
      FirstUnique(online, s);
      var x :| IsFirst(online, s, x);
      var rest := OrderedNames(online, s - {x});
      assert |s - {x}| == |s| - 1;
      [x] + rest
  }

  /** A roster order has no repetitions. */
  lemma RosterDistinct(online: map<string, bool>, s: set<string>, names: seq<string>)
    requires s <= online.Keys && IsRosterOf(online, s, names)
    ensures Distinct(names)
  {
    forall i, j | 0 <= i < j < |names|
      ensures names[i] != names[j]
    {
      StrLessIrreflexive(names[i]);
    }
  }

  /** The head of a roster listing is the set's first name. */
  lemma RosterHeadIsFirst(online: map<string, bool>, s: set<string>, names: seq<string>)
    requires s <= online.Keys && IsRosterOf(online, s, names) && names != []
    ensures IsFirst(online, s, names[0])
  {
    forall y | y in s && y != names[0]
      ensures RosterBefore(online, names[0], y)
    {
      var j :| 0 <= j < |names| && names[j] == y;
    }
  }

  /** The tail of a roster listing lists the rest of the set. */
  lemma RosterTail(online: map<string, bool>, s: set<string>, names: seq<string>)
    requires s <= online.Keys && IsRosterOf(online, s, names) && names != []
    ensures IsRosterOf(online, s - {names[0]}, names[1..])
  {
    RosterDistinct(online, s, names);
    forall n
      ensures n in names[1..] <==> n in s - {names[0]}
    {
      if n in names[1..] {
        var j :| 1 <= j < |names| && names[j] == n;
      }
      if n in s - {names[0]} {
        var j :| 0 <= j < |names| && names[j] == n;
        assert names[1..][j - 1] == n;
      }
    }
  }

  /** The roster order of a set is unique: any ordered listing of it is `OrderedNames`. */
  lemma {:induction false} RosterUnique(online: map<string, bool>, s: set<string>, names: seq<string>)
    requires s <= online.Keys && IsRosterOf(online, s, names)
    ensures names == OrderedNames(online, s)
    decreases |names|
  {
    if names == [] {
      assert s == {};
    } else {
      var x := names[0];
      RosterHeadIsFirst(online, s, names);
      OrderedNamesUnfold(online, s, x);
      RosterTail(online, s, names);
      RosterUnique(online, s - {x}, names[1..]);
      assert names == [x] + names[1..];
    }
  }

  /** The roster of a set is its first name followed by the roster of the others. */
  lemma OrderedNamesUnfold(online: map<string, bool>, s: set<string>, x: string)
    requires s <= online.Keys && IsFirst(online, s, x)
    ensures OrderedNames(online, s) == [x] + OrderedNames(online, s - {x})
  {
    FirstUnique(online, s);
  }

  /** The entry of the roster event is for an online user. */
  predicate IsOnlineItem(v: Value)
  {
    v.Object? && "is_online" in v.fields && v.fields["is_online"] == Bool(true)
  }

  /** One entry of the roster event: `{"name": ..., "is_online": ...}`. */
  function UserItem(name: string, isOnline: bool): Value
  {
    Object(map["name" := Str(name), "is_online" := Bool(isOnline)])
  }

  /**
   * The entries of `get_all_users()`: one per record, online users first, each
   * group ordered by name.
   */
  function RosterItems(online: map<string, bool>): (users: seq<Value>)
    ensures |users| == |online|
  {
    var names := OrderedNames(online, online.Keys);
    assert |online.Keys| == |online|;
    seq(|names|, i requires 0 <= i < |names| => UserItem(names[i], online[names[i]]))
  }

  /** Every roster entry is a stored record with its presence flag. */
  lemma RosterEntriesAreRecords(online: map<string, bool>)
    ensures forall i :: 0 <= i < |RosterItems(online)| ==>
              exists n :: n in online && RosterItems(online)[i] == UserItem(n, online[n])
  {
    var names := OrderedNames(online, online.Keys);
    var users := RosterItems(online);
    forall i | 0 <= i < |users|
      ensures exists n :: n in online && users[i] == UserItem(n, online[n])
    {
      assert names[i] in names;
      assert users[i] == UserItem(names[i], online[names[i]]);
    }
  }

  /** Every stored record appears in the roster with its presence flag. */
  lemma RosterListsEveryRecord(online: map<string, bool>)
    ensures forall n :: n in online ==> UserItem(n, online[n]) in RosterItems(online)
  {
    var names := OrderedNames(online, online.Keys);
    var users := RosterItems(online);
    forall n | n in online
      ensures UserItem(n, online[n]) in users
    {
      var j :| 0 <= j < |names| && names[j] == n;
      assert users[j] == UserItem(n, online[n]);
    }
  }

  /** In the roster every online entry comes before every offline one. */
  lemma RosterOnlineFirst(online: map<string, bool>)
    ensures forall i, j :: 0 <= i < j < |RosterItems(online)| && IsOnlineItem(RosterItems(online)[j]) ==>
              IsOnlineItem(RosterItems(online)[i])
  {
    var names := OrderedNames(online, online.Keys);
    var users := RosterItems(online);
    forall i, j | 0 <= i < j < |users| && IsOnlineItem(users[j])
      ensures IsOnlineItem(users[i])
    {
      assert users[i] == UserItem(names[i], online[names[i]]);
      assert users[j] == UserItem(names[j], online[names[j]]);
      assert RosterBefore(online, names[i], names[j]);
    }
  }

  /** The presence map after `upsert_user(name)`: a new name gets an offline record. */
  function Upserted(online: map<string, bool>, name: string): (r: map<string, bool>)
    ensures r.Keys == online.Keys + {name}
    ensures forall n :: n in online ==> r[n] == online[n]
    ensures name !in online ==> !r[name]
  {
    if name in online then online else online[name := false]
  }

  /** The presence map after `set_user_online(name, isOnline)`: only an existing record changes. */
  function OnlineSet(online: map<string, bool>, name: string, isOnline: bool): (r: map<string, bool>)
    ensures r.Keys == online.Keys
    ensures forall n :: n in online && n != name ==> r[n] == online[n]
    ensures name in online ==> r[name] == isOnline
  {
    if name in online then online[name := isOnline] else online
  }

  /** The `users` table: whether each display name ever seen is online. */
  class UserTable {
    var online: map<string, bool>

    constructor ()
      ensures online == map[]
    {
      online := map[];
    }

    /** `upsert_user(name)`: a new name gets an offline record; an existing record keeps its flag. */
    method UpsertUser(name: string)
      modifies this
      ensures online == Upserted(old(online), name)
    {
      if name !in online {
        online := online[name := false];
      }
    }

    /** `set_user_online(name, is_online)`: an update of an existing record. */
    method SetUserOnline(name: string, isOnline: bool)
      modifies this
      ensures online == OnlineSet(old(online), name, isOnline)
    {
      if name in online {
        online := online[name := isOnline];
      }
    }

    /** `get_all_users()` */
    function GetAllUsers(): (users: seq<Value>)
      reads this
      ensures users == RosterItems(online)
    {
      RosterItems(online)
    }
  }
}
