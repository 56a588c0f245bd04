/**
Cursor taint (engine-py/python/rust_orm_shim.py): a cursor that wrote a security model must not be
answered by the kernel until the write is rolled back, or committed and signalled.

`Taint` keeps the four collections of the source, with the per-cursor user sets as mutable objects,
since the committed sets must be copies.  `TaintLaws` proves that the collections track, exactly,
which writes are still outstanding.
*/
module TaintState {
  import opened Wrappers

  type Cursor = int
  type Uid = int

  const SECURITY_MODELS := {
    "ir.access", "res.groups", "res.users", "ir.default",
    "res.company", "res.lang", "ir.model", "ir.model.fields"
  }

  const KERNEL_READ_FIELDS := map[
    "res.lang" := {"code", "week_start", "active"},
    "res.company" := {"user_ids", "active"},
    "ir.model.fields" := {
      "model", "model_id", "name", "ttype", "relation", "relation_table", "column1", "column2",
      "relation_field", "company_dependent", "store", "related"
    }
  ]

  /** The four collections, by value. */
  datatype View = View(
    dirty: set<Cursor>,
    committed: set<Cursor>,
    users: map<Cursor, set<Uid>>,
    committedUsers: map<Cursor, set<Uid>>)

  function UsersAt(m: map<Cursor, set<Uid>>, cr: Cursor): set<Uid>
  {
    if cr in m then m[cr] else {}
  }

  predicate Tainted(v: View, cr: Cursor, uid: Uid)
  {
    cr in v.dirty || uid in UsersAt(v.users, cr)
  }

  function WithCursor(v: View, cr: Cursor): View
  {
    v.(dirty := v.dirty + {cr})
  }

  function WithUsers(v: View, cr: Cursor, uids: set<Uid>): View
  {
    v.(users := v.users[cr := UsersAt(v.users, cr) + uids])
  }

  function Committed(v: View, cr: Cursor): View
  {
    v.(committed := if cr in v.dirty then v.committed + {cr} else v.committed,
       committedUsers := if cr in v.users
                         then v.committedUsers[cr := UsersAt(v.committedUsers, cr) + v.users[cr]]
                         else v.committedUsers)
  }

  function RolledBack(v: View, cr: Cursor): View
  {
    v.(dirty := if cr in v.committed then v.dirty else v.dirty - {cr},
       users := if cr in v.committedUsers then v.users[cr := v.committedUsers[cr]] else v.users - {cr})
  }

  /** A cursor without a database name counts as belonging to whichever one signals. */
  predicate Belongs(dbOf: Cursor -> Option<string>, cr: Cursor, db: string)
  {
    dbOf(cr).None? || dbOf(cr).value == db
  }

  function Signalled(v: View, dbOf: Cursor -> Option<string>, db: string): View
  {
    var sent := set cr | cr in v.committed && Belongs(dbOf, cr, db);
    var sentUsers := set cr | cr in v.committedUsers && Belongs(dbOf, cr, db);
    View(v.dirty - sent, v.committed - sent, v.users - sentUsers, v.committedUsers - sentUsers)
  }

  // ----- which writes taint ----------------------------------------------------------------------------

  datatype Vals = NotADict | Dict(keys: set<string>)

  datatype Write = Write(model: string, ids: set<Uid>, vals: Vals, creating: bool, invalidating: Option<set<string>>)

  function Watched(w: Write): Option<set<string>>
  {
    if w.model == "res.users" then w.invalidating
    else if w.model in KERNEL_READ_FIELDS then Some(KERNEL_READ_FIELDS[w.model]) else None
  }

  predicate Harmless(w: Write)
  {
    w.vals.Dict? && w.vals.keys != {} && Watched(w).Some? && w.vals.keys !! Watched(w).value
  }

  datatype Mark = Nothing | Users(uids: set<Uid>) | WholeCursor

  function MarkOf(w: Write): Mark
  {
    if (!w.creating && w.ids == {}) || Harmless(w) then Nothing
    else if w.model == "res.users" && !w.creating then Users(w.ids)
    else if w.model in SECURITY_MODELS then WholeCursor
    else Nothing
  }

  /** A create of res.users marks the users it made; the values of any other create are not passed on. */
  function MarkOfCreate(model: string, made: set<Uid>): Mark
  {
    if model == "res.users" then Users(made) else if model in SECURITY_MODELS then WholeCursor else Nothing
  }

  function Marked(v: View, cr: Cursor, m: Mark): View
  {
    match m
    case Nothing => v
    case Users(uids) => WithUsers(v, cr, uids)
    case WholeCursor => WithCursor(v, cr)
  }

  // ----- the module's globals ----------------------------------------------------------------------------

  /** A set object belongs to one cursor, in one of the two maps. */
  class UserSet {
    ghost const owner: Cursor
    ghost const kept: bool
    var members: set<Uid>

    constructor (members: set<Uid>, ghost owner: Cursor, ghost kept: bool)
      ensures this.members == members && this.owner == owner && this.kept == kept
    {
      this.members, this.owner, this.kept := members, owner, kept;
    }
  }

  /** Every entry has a set object of its own: it knows whose it is. */
  ghost predicate Owned(entries: map<Cursor, UserSet>, kept: bool, sets: set<UserSet>)
  {
    forall a :: a in entries ==> entries[a] in sets && entries[a].owner == a && entries[a].kept == kept
  }

  ghost function MembersOf(entries: map<Cursor, UserSet>, sets: set<UserSet>): map<Cursor, set<Uid>>
    requires forall a :: a in entries ==> entries[a] in sets
    reads sets
  {
    map a | a in entries :: entries[a].members
  }

  lemma MembersAre(entries: map<Cursor, UserSet>, sets: set<UserSet>, members: map<Cursor, set<Uid>>)
    requires forall a :: a in entries ==> entries[a] in sets
    requires entries.Keys == members.Keys && forall a :: a in entries ==> entries[a].members == members[a]
    ensures MembersOf(entries, sets) == members
  {
    var shown := MembersOf(entries, sets);
    assert shown.Keys == members.Keys;
    assert forall a :: a in shown ==> shown[a] == members[a];
  }

  class Taint {
    const dbOf: Cursor -> Option<string>
    var dirty: set<Cursor>
    var committed: set<Cursor>
    var users: map<Cursor, UserSet>
    var committedUsers: map<Cursor, UserSet>
    ghost var sets: set<UserSet>   // every set object either map refers to

    constructor (dbOf: Cursor -> Option<string>)
      ensures this.dbOf == dbOf && Valid() && Now() == View({}, {}, map[], map[]) && sets == {}
    {
      this.dbOf := dbOf;
      dirty, committed, users, committedUsers, sets := {}, {}, map[], map[], {};
    }

    /** No two entries share a set object; committed marks are marks. */
    ghost predicate Valid()
      reads this, sets
    {
      && Owned(users, false, sets)
      && Owned(committedUsers, true, sets)
      && committed <= dirty
      && (forall cr :: cr in committedUsers ==>
            cr in users && committedUsers[cr].members <= users[cr].members)
    }

    ghost function Now(): View
      requires Valid()
      reads this, sets
    {
      View(dirty, committed, MembersOf(users, sets), MembersOf(committedUsers, sets))
    }

    method IsTainted(cr: Cursor, uid: Uid) returns (tainted: bool)
      requires Valid()
      ensures tainted == Tainted(Now(), cr, uid)
    {
      tainted := cr in dirty || (cr in users && uid in users[cr].members);
    }

    method TaintUsers(cr: Cursor, uids: set<Uid>)
      requires Valid()
      modifies this`users, this`sets, sets
      ensures Valid() && fresh(sets - old(sets))
      ensures Now() == WithUsers(old(Now()), cr, uids)
    {
      ghost var v := old(Now());
      if cr !in users {
        var empty := new UserSet({}, cr, false);
        users, sets := users[cr := empty], sets + {empty};
      }
      var held := users[cr];
      held.members := held.members + uids;
      MembersAre(users, sets, v.users[cr := UsersAt(v.users, cr) + uids]);
      MembersAre(committedUsers, sets, v.committedUsers);
    }

    method TaintRecord(cr: Cursor, w: Write)
      requires Valid()
      modifies this`dirty, this`users, this`sets, sets
      ensures Valid() && fresh(sets - old(sets))
      ensures Now() == Marked(old(Now()), cr, MarkOf(w))
      ensures w.ids != {} && w.model in SECURITY_MODELS && w.model != "res.users"
              && (w.vals == NotADict || w.vals.keys == {} || w.model !in KERNEL_READ_FIELDS
                  || exists k :: k in w.vals.keys && k in KERNEL_READ_FIELDS[w.model])
              ==> forall uid :: Tainted(Now(), cr, uid)
      ensures w.model == "res.users" && !w.creating
              && (w.vals == NotADict || w.vals.keys == {} || w.invalidating == None
                  || exists k :: k in w.vals.keys && k in w.invalidating.value)
              ==> (forall uid :: uid in w.ids ==> Tainted(Now(), cr, uid)) && dirty == old(dirty)
      ensures w.vals.Dict? && w.vals.keys != {}
              && (w.model == "res.users" ==> w.invalidating != None && forall k :: k in w.vals.keys ==> k !in w.invalidating.value)
              && (w.model != "res.users" ==> w.model in KERNEL_READ_FIELDS && forall k :: k in w.vals.keys ==> k !in KERNEL_READ_FIELDS[w.model])
              ==> Now() == old(Now())
      ensures (w.ids == {} && !w.creating) || w.model !in SECURITY_MODELS ==> Now() == old(Now())
    {
      if (!w.creating && w.ids == {}) || Harmless(w) {
        return;
      }
      if w.model == "res.users" && !w.creating {
        TaintUsers(cr, w.ids);
        return;
      }
      if w.model in SECURITY_MODELS {
        dirty := dirty + {cr};
      }
    }

    /** create() of res.users marks the users it made; any other create of a security model marks the
        cursor beforehand, whatever its values, for they are not passed on. */
    method TaintCreate(cr: Cursor, w: Write, created: set<Uid>)
      requires Valid() && w.creating
      modifies this`dirty, this`users, this`sets, sets
      ensures Valid() && fresh(sets - old(sets))
      ensures Now() == Marked(old(Now()), cr, MarkOfCreate(w.model, created))
    {
      if w.model == "res.users" {
        TaintUsers(cr, created);
      } else {
        TaintRecord(cr, w.(vals := NotADict));
      }
    }

    method DefaultCommittedUsers(cr: Cursor)
      requires Valid() && cr in users
      modifies this`committedUsers, this`sets
      ensures Valid() && fresh(sets - old(sets)) && cr in committedUsers
      ensures Now() == var v := old(Now()); v.(committedUsers := v.committedUsers[cr := UsersAt(v.committedUsers, cr)])
    {
      ghost var v := old(Now());
      if cr !in committedUsers {
        var empty := new UserSet({}, cr, true);
        committedUsers, sets := committedUsers[cr := empty], sets + {empty};
      }
      MembersAre(users, sets, v.users);
      MembersAre(committedUsers, sets, v.committedUsers[cr := UsersAt(v.committedUsers, cr)]);
    }

    method UpdateCommittedUsers(cr: Cursor)
      requires Valid() && cr in users && cr in committedUsers
      modifies committedUsers[cr]
      ensures Valid()
      ensures Now() == var v := old(Now()); v.(committedUsers := v.committedUsers[cr := v.committedUsers[cr] + v.users[cr]])
    {
      ghost var v := Now();
      var held := committedUsers[cr];
      held.members := held.members + users[cr].members;
      MembersAre(users, sets, v.users);
      MembersAre(committedUsers, sets, v.committedUsers[cr := v.committedUsers[cr] + v.users[cr]]);
    }

    method KeepCommittedUsers(cr: Cursor)
      requires Valid() && cr in users
      modifies this`committedUsers, this`sets, sets
      ensures Valid() && fresh(sets - old(sets))
      ensures Now() == var v := old(Now());
                       v.(committedUsers := v.committedUsers[cr := UsersAt(v.committedUsers, cr) + v.users[cr]])
    {
      DefaultCommittedUsers(cr);
      UpdateCommittedUsers(cr);
    }

    method RestoreUsers(cr: Cursor)
      requires Valid()
      modifies this`users, this`sets
      ensures Valid() && fresh(sets - old(sets))
      ensures Now() == var v := old(Now());
                       v.(users := if cr in v.committedUsers then v.users[cr := v.committedUsers[cr]] else v.users - {cr})
    {
      ghost var v := old(Now());
      if cr in committedUsers {
        var copy := new UserSet(committedUsers[cr].members, cr, false);
        users, sets := users[cr := copy], sets + {copy};
      } else {
        users := users - {cr};
      }
      MembersAre(users, sets, if cr in v.committedUsers then v.users[cr := v.committedUsers[cr]] else v.users - {cr});
      MembersAre(committedUsers, sets, v.committedUsers);
    }

    method Untaint(cr: Cursor, afterCommit: bool)
      requires Valid()
      modifies this`dirty, this`committed, this`users, this`committedUsers, this`sets, sets
      ensures Valid() && fresh(sets - old(sets))
      ensures Now() == if afterCommit then Committed(old(Now()), cr) else RolledBack(old(Now()), cr)
    {
      if afterCommit {
        if cr in dirty {
          committed := committed + {cr};
        }
        if cr in users {
          KeepCommittedUsers(cr);
        }
      } else {
        if cr !in committed {
          dirty := dirty - {cr};
        }
        RestoreUsers(cr);
      }
    }

    /** `listed` is the arbitrary order in which the set of committed cursors is walked. */
    method SignalCursors(db: string, listed: seq<Cursor>)
      requires forall cr :: cr in listed <==> cr in committed
      modifies this`dirty, this`committed
      ensures var sent := set cr | cr in old(committed) && Belongs(dbOf, cr, db);
              dirty == old(dirty) - sent && committed == old(committed) - sent
    {
      for i := 0 to |listed|
        invariant committed == set cr | cr in old(committed) && !(Belongs(dbOf, cr, db) && cr in listed[..i])
        invariant dirty == set cr | cr in old(dirty) && !(Belongs(dbOf, cr, db) && cr in listed[..i])
      {
        var cr := listed[i];
        if dbOf(cr).None? || dbOf(cr).value == db {
          committed := committed - {cr};
          dirty := dirty - {cr};
        }
        assert listed[..i + 1] == listed[..i] + [cr];
      }
      assert listed[..|listed|] == listed;
    }

    method SignalUsers(db: string, listed: seq<Cursor>)
      requires forall cr :: cr in listed <==> cr in committedUsers
      modifies this`users, this`committedUsers
      ensures var sent := set cr | cr in old(committedUsers) && Belongs(dbOf, cr, db);
              users == old(users) - sent && committedUsers == old(committedUsers) - sent
    {
      ghost var gone: set<Cursor> := {};
      for i := 0 to |listed|
        invariant gone == set cr | cr in listed[..i] && Belongs(dbOf, cr, db)
        invariant committedUsers == old(committedUsers) - gone
        invariant users == old(users) - gone
      {
        var cr := listed[i];
        assert listed[..i + 1] == listed[..i] + [cr];
        if dbOf(cr).None? || dbOf(cr).value == db {
          committedUsers := committedUsers - {cr};
          users := users - {cr};
          gone := gone + {cr};
        }
      }
      assert listed[..|listed|] == listed;
      assert gone == set cr | cr in old(committedUsers) && Belongs(dbOf, cr, db);
    }

    /** signal_changes of database `db` has been sent. */
    method Signal(db: string, cursors: seq<Cursor>, usersOf: seq<Cursor>)
      requires Valid()
      requires forall cr :: cr in cursors <==> cr in committed
      requires forall cr :: cr in usersOf <==> cr in committedUsers
      modifies this`dirty, this`committed, this`users, this`committedUsers
      ensures Valid()
      ensures Now() == Signalled(old(Now()), dbOf, db)
    {
      SignalCursors(db, cursors);
      SignalUsers(db, usersOf);
      ghost var v, sent := old(Now()), set cr | cr in old(committedUsers) && Belongs(dbOf, cr, db);
      assert sent == set cr | cr in v.committedUsers && Belongs(dbOf, cr, db);
      MembersAre(users, sets, v.users - sent);
      MembersAre(committedUsers, sets, v.committedUsers - sent);
    }
  }
}

module TaintLaws {
  import opened TaintState
  import opened Wrappers

  datatype Event =
    | Writes(cr: Cursor, write: Write)
    | Creates(cr: Cursor, model: string, made: set<Uid>)
    | Commit(cr: Cursor)
    | Rollback(cr: Cursor)
    | SignalChanges(db: string)

  function Step(v: View, dbOf: Cursor -> Option<string>, e: Event): View
  {
    match e
    case Writes(cr, w) => Marked(v, cr, MarkOf(w))
    case Creates(cr, model, made) => Marked(v, cr, MarkOfCreate(model, made))
    case Commit(cr) => Committed(v, cr)
    case Rollback(cr) => RolledBack(v, cr)
    case SignalChanges(db) => Signalled(v, dbOf, db)
  }

  function Run(v: View, dbOf: Cursor -> Option<string>, events: seq<Event>): View
    decreases |events|
  {
    if events == [] then v else Run(Step(v, dbOf, events[0]), dbOf, events[1..])
  }

  // ----- what is truly outstanding: an account of the writes themselves --------------------------------

  /** Writes not yet committed, and writes committed but not yet signalled. */
  datatype Ledger = Ledger(
    open: set<Cursor>,
    unsent: set<Cursor>,
    openUsers: set<(Cursor, Uid)>,
    unsentUsers: set<(Cursor, Uid)>)

  predicate Outstanding(l: Ledger, cr: Cursor, uid: Uid)
  {
    cr in l.open || cr in l.unsent || UserOwed(l, cr, uid)
  }

  predicate UserOwed(l: Ledger, cr: Cursor, uid: Uid)
  {
    (cr, uid) in l.openUsers || (cr, uid) in l.unsentUsers
  }

  /** Whether a write can change what the kernel has read: it touches a column the kernel watches, or the
      columns it touches or those the kernel watches are not known. */
  ghost predicate Matters(w: Write)
  {
    match w.vals
    case NotADict => true
    case Dict(keys) =>
      || keys == {}
      || (w.model == "res.users" && (w.invalidating == None || exists k :: k in keys && k in w.invalidating.value))
      || (w.model != "res.users" && (w.model !in KERNEL_READ_FIELDS || exists k :: k in keys && k in KERNEL_READ_FIELDS[w.model]))
  }

  /** A write to users is owed to those users, one to another security model to every user. */
  ghost function Owed(l: Ledger, cr: Cursor, w: Write): Ledger
  {
    if (w.ids == {} && !w.creating) || !Matters(w) then l
    else if w.model == "res.users" && !w.creating then l.(openUsers := l.openUsers + (set u | u in w.ids :: (cr, u)))
    else if w.model in SECURITY_MODELS then l.(open := l.open + {cr})
    else l
  }

  ghost function Account(l: Ledger, dbOf: Cursor -> Option<string>, e: Event): Ledger
  {
    match e
    case Writes(cr, w) => Owed(l, cr, w)
    case Creates(cr, model, made) =>
      if model == "res.users" then l.(openUsers := l.openUsers + (set u | u in made :: (cr, u)))
      else if model in SECURITY_MODELS then l.(open := l.open + {cr})
      else l
    case Commit(cr) =>
      var mine := set p | p in l.openUsers && p.0 == cr;
      Ledger(l.open - {cr}, l.unsent + (l.open * {cr}), l.openUsers - mine, l.unsentUsers + mine)
    case Rollback(cr) =>
      l.(open := l.open - {cr}, openUsers := (set p | p in l.openUsers && p.0 != cr))
    case SignalChanges(db) =>
      l.(unsent := (set cr | cr in l.unsent && dbOf(cr) != None && dbOf(cr) != Some(db)),
         unsentUsers := (set p | p in l.unsentUsers && dbOf(p.0) != None && dbOf(p.0) != Some(db)))
  }

  ghost function AccountAll(l: Ledger, dbOf: Cursor -> Option<string>, events: seq<Event>): Ledger
    decreases |events|
  {
    if events == [] then l else AccountAll(Account(l, dbOf, events[0]), dbOf, events[1..])
  }

  /** The collections hold exactly the outstanding writes. */
  ghost predicate Tracks(v: View, l: Ledger)
  {
    && v.dirty == l.open + l.unsent
    && v.committed == l.unsent
    && (forall cr, u :: u in UsersAt(v.users, cr) <==> UserOwed(l, cr, u))
    && (forall cr, u :: u in UsersAt(v.committedUsers, cr) <==> (cr, u) in l.unsentUsers)
  }

  /** When a signal arrives, no cursor of its database has written on top of a commit that was not
      signalled.  Open writes of cursors with nothing committed are of no matter. */
  ghost predicate QuietSignal(v: View, l: Ledger, dbOf: Cursor -> Option<string>, db: string)
  {
    && (forall cr :: cr in v.committed && cr in l.open ==> dbOf(cr) != None && dbOf(cr) != Some(db))
    && (forall p :: p in l.openUsers && p.0 in v.committedUsers ==> dbOf(p.0) != None && dbOf(p.0) != Some(db))
  }

  /** Exactly which signals keep the account straight. */
  lemma SignalKeepsTrackIff(v: View, l: Ledger, dbOf: Cursor -> Option<string>, db: string)
    requires Tracks(v, l)
    ensures Tracks(Step(v, dbOf, SignalChanges(db)), Account(l, dbOf, SignalChanges(db))) <==> QuietSignal(v, l, dbOf, db)
  {
    var v', l' := Signalled(v, dbOf, db), Account(l, dbOf, SignalChanges(db));
    if cr :| cr in v.committed && Belongs(dbOf, cr, db) && cr in l.open {
      assert cr in l'.open && cr !in v'.dirty;
    } else if p :| p in l.openUsers && p.0 in v.committedUsers && Belongs(dbOf, p.0, db) {
      assert p == (p.0, p.1);
      assert UserOwed(l', p.0, p.1) && p.1 !in UsersAt(v'.users, p.0);
    } else {
      forall cr, u
        ensures u in UsersAt(v'.users, cr) <==> UserOwed(l', cr, u)
        ensures u in UsersAt(v'.committedUsers, cr) <==> (cr, u) in l'.unsentUsers
      {
        assert u in UsersAt(v.users, cr) <==> UserOwed(l, cr, u);
        assert u in UsersAt(v.committedUsers, cr) <==> (cr, u) in l.unsentUsers;
        assert (cr, u) in l.openUsers && (cr, u).0 in v.committedUsers ==> dbOf((cr, u).0) != None && dbOf((cr, u).0) != Some(db);
      }
      assert v'.dirty == l'.open + l'.unsent;
    }
  }

  /** A mark, entered as open. */
  function Entered(l: Ledger, cr: Cursor, m: Mark): Ledger
  {
    match m
    case Nothing => l
    case Users(uids) => l.(openUsers := l.openUsers + (set u | u in uids :: (cr, u)))
    case WholeCursor => l.(open := l.open + {cr})
  }

  /** A write is marked exactly as it is owed. */
  lemma WriteIsOwed(l: Ledger, cr: Cursor, w: Write)
    ensures Owed(l, cr, w) == Entered(l, cr, MarkOf(w))
  {
    if w.vals.Dict? && Watched(w).Some? {
      assert w.vals.keys !! Watched(w).value <==> !exists k :: k in w.vals.keys && k in Watched(w).value;
    }
  }

  lemma MarkKeepsTrack(v: View, l: Ledger, cr: Cursor, m: Mark)
    requires Tracks(v, l)
    ensures Tracks(Marked(v, cr, m), Entered(l, cr, m))
  {
    if m.Users? {
      var v', l' := Marked(v, cr, m), Entered(l, cr, m);
      forall c, u
        ensures u in UsersAt(v'.users, c) <==> UserOwed(l', c, u)
      {
        assert u in UsersAt(v.users, c) <==> UserOwed(l, c, u);
      }
    }
  }

  /** Every other event keeps it straight. */
  lemma WriteKeepsTrack(v: View, l: Ledger, dbOf: Cursor -> Option<string>, e: Event)
    requires Tracks(v, l) && !e.SignalChanges?
    ensures Tracks(Step(v, dbOf, e), Account(l, dbOf, e))
  {
    match e
    case Writes(cr, w) =>
      WriteIsOwed(l, cr, w);
      MarkKeepsTrack(v, l, cr, MarkOf(w));
    case Creates(cr, model, made) =>
      MarkKeepsTrack(v, l, cr, MarkOfCreate(model, made));
    case _ => TransactionKeepsTrack(v, l, dbOf, e);
  }

  lemma TransactionKeepsTrack(v: View, l: Ledger, dbOf: Cursor -> Option<string>, e: Event)
    requires Tracks(v, l) && (e.Commit? || e.Rollback?)
    ensures Tracks(Step(v, dbOf, e), Account(l, dbOf, e))
  {
    var v', l' := Step(v, dbOf, e), Account(l, dbOf, e);
    forall cr, u
      ensures u in UsersAt(v'.users, cr) <==> UserOwed(l', cr, u)
      ensures u in UsersAt(v'.committedUsers, cr) <==> (cr, u) in l'.unsentUsers
    {
      assert u in UsersAt(v.users, cr) <==> UserOwed(l, cr, u);
      assert u in UsersAt(v.committedUsers, cr) <==> (cr, u) in l.unsentUsers;
    }
  }

  lemma TracksStepIff(v: View, l: Ledger, dbOf: Cursor -> Option<string>, e: Event)
    requires Tracks(v, l)
    ensures Tracks(Step(v, dbOf, e), Account(l, dbOf, e)) <==> (e.SignalChanges? ==> QuietSignal(v, l, dbOf, e.db))
  {
    if e.SignalChanges? {
      SignalKeepsTrackIff(v, l, dbOf, e.db);
    } else {
      WriteKeepsTrack(v, l, dbOf, e);
    }
  }

  /** Every signal of the run is quiet in the state it finds. */
  ghost predicate QuietRun(v: View, l: Ledger, dbOf: Cursor -> Option<string>, events: seq<Event>)
    decreases |events|
  {
    events == [] ||
    ((events[0].SignalChanges? ==> QuietSignal(v, l, dbOf, events[0].db))
     && QuietRun(Step(v, dbOf, events[0]), Account(l, dbOf, events[0]), dbOf, events[1..]))
  }

  /** The account is straight after the first `i` events. */
  ghost predicate TracksAt(v: View, l: Ledger, dbOf: Cursor -> Option<string>, events: seq<Event>, i: nat)
    requires i <= |events|
  {
    Tracks(Run(v, dbOf, events[..i]), AccountAll(l, dbOf, events[..i]))
  }

  lemma TracksAtNext(v: View, l: Ledger, dbOf: Cursor -> Option<string>, events: seq<Event>, i: nat)
    requires i < |events|
    ensures TracksAt(v, l, dbOf, events, i + 1) ==
            TracksAt(Step(v, dbOf, events[0]), Account(l, dbOf, events[0]), dbOf, events[1..], i)
  {
    assert events[..i + 1][1..] == events[1..][..i];
  }

  /** Over every run the account is straight all the way exactly when every signal is quiet. */
  lemma {:induction false} TracksThroughoutIff(v: View, l: Ledger, dbOf: Cursor -> Option<string>, events: seq<Event>)
    requires Tracks(v, l)
    ensures QuietRun(v, l, dbOf, events) <==> forall i :: 0 <= i <= |events| ==> TracksAt(v, l, dbOf, events, i)
    decreases |events|
  {
    if events != [] {
      var v1, l1, rest := Step(v, dbOf, events[0]), Account(l, dbOf, events[0]), events[1..];
      TracksStepIff(v, l, dbOf, events[0]);
      TracksAtNext(v, l, dbOf, events, 0);
      assert TracksAt(v1, l1, dbOf, rest, 0) <==> Tracks(v1, l1);
      if Tracks(v1, l1) {
        TracksThroughoutIff(v1, l1, dbOf, rest);
        forall i | 0 < i <= |events|
          ensures TracksAt(v, l, dbOf, events, i) == TracksAt(v1, l1, dbOf, rest, i - 1)
        {
          TracksAtNext(v, l, dbOf, events, i - 1);
        }
        forall i | 0 <= i <= |rest|
          ensures TracksAt(v1, l1, dbOf, rest, i) == TracksAt(v, l, dbOf, events, i + 1)
        {
          TracksAtNext(v, l, dbOf, events, i);
        }
      } else {
        assert !TracksAt(v, l, dbOf, events, 1);
      }
    }
  }

  /** Over every run whose signals are quiet, a read is held back exactly while a security write of
      its cursor, or a write to its user, is outstanding. */
  lemma TaintIsExact(v: View, l: Ledger, dbOf: Cursor -> Option<string>, events: seq<Event>, cr: Cursor, uid: Uid)
    requires Tracks(v, l) && QuietRun(v, l, dbOf, events)
    ensures Tainted(Run(v, dbOf, events), cr, uid) <==> Outstanding(AccountAll(l, dbOf, events), cr, uid)
  {
    TracksThroughoutIff(v, l, dbOf, events);
    assert events[..|events|] == events && TracksAt(v, l, dbOf, events, |events|);
    var v', l' := Run(v, dbOf, events), AccountAll(l, dbOf, events);
    assert uid in UsersAt(v'.users, cr) <==> UserOwed(l', cr, uid);
  }

  /** For instance, a write that stays open on one cursor while the commit of another is signalled: the
      signal is quiet, and clears the one without the other. */
  lemma OpenWriteSurvivesSignal(dbOf: Cursor -> Option<string>, db: string, uid: Uid)
    requires Belongs(dbOf, 1, db) && Belongs(dbOf, 2, db)
    ensures var v, l := View({1, 2}, {1}, map[], map[]), Ledger({2}, {1}, {}, {});
            && Tracks(v, l) && QuietRun(v, l, dbOf, [SignalChanges(db)])
            && var v' := Run(v, dbOf, [SignalChanges(db)]);
            Tainted(v', 2, uid) && !Tainted(v', 1, uid)
  {
    var v := View({1, 2}, {1}, map[], map[]);
    assert [SignalChanges(db)][1..] == [];
    assert Run(v, dbOf, [SignalChanges(db)]) == Step(v, dbOf, SignalChanges(db));
  }

  /** Without that assumption the taint of an uncommitted write is lost. */
  lemma BusySignalForgets(dbOf: Cursor -> Option<string>, db: string, uid: Uid)
    requires Belongs(dbOf, 1, db)
    ensures var unlink := Write("ir.access", {7}, NotADict, false, None);
            var run := [Writes(1, unlink), Commit(1), Writes(1, unlink), SignalChanges(db)];
            !Tainted(Run(View({}, {}, map[], map[]), dbOf, run), 1, uid)
            && Outstanding(AccountAll(Ledger({}, {}, {}, {}), dbOf, run), 1, uid)
  {
    var unlink := Write("ir.access", {7}, NotADict, false, None);
    var e1, e2, e3, e4 := Writes(1, unlink), Commit(1), Writes(1, unlink), SignalChanges(db);
    var run := [e1, e2, e3, e4];
    assert run[1..] == [e2, e3, e4] && run[1..][1..] == [e3, e4] && run[1..][1..][1..] == [e4];
    var v0, l0 := View({}, {}, map[], map[]), Ledger({}, {}, {}, {});
    var v1, l1 := Step(v0, dbOf, e1), Account(l0, dbOf, e1);
    var v2, l2 := Step(v1, dbOf, e2), Account(l1, dbOf, e2);
    var v3, l3 := Step(v2, dbOf, e3), Account(l2, dbOf, e3);
    assert v3 == View({1}, {1}, map[], map[]) && 1 in l3.open;
    assert Run(v0, dbOf, run) == Run(v1, dbOf, [e2, e3, e4]) == Run(v2, dbOf, [e3, e4]) == Run(v3, dbOf, [e4]);
    assert Run(v3, dbOf, [e4]) == Run(Step(v3, dbOf, e4), dbOf, []);
    assert AccountAll(l0, dbOf, run) == AccountAll(l1, dbOf, [e2, e3, e4]) == AccountAll(l2, dbOf, [e3, e4])
        == AccountAll(l3, dbOf, [e4]);
    assert AccountAll(l3, dbOf, [e4]) == AccountAll(Account(l3, dbOf, e4), dbOf, []);
  }

  // ----- algebra of the events ----------------------------------------------------------------------------

  ghost predicate Nested(v: View)
  {
    && v.committed <= v.dirty
    && (forall cr :: cr in v.committedUsers ==> cr in v.users && v.committedUsers[cr] <= v.users[cr])
  }

  /** The committed collections stay inside the dirty ones, whatever happens. */
  lemma {:induction false} NestedAlways(v: View, dbOf: Cursor -> Option<string>, events: seq<Event>)
    requires Nested(v)
    ensures Nested(Run(v, dbOf, events))
    decreases |events|
  {
    if events != [] {
      NestedAlways(Step(v, dbOf, events[0]), dbOf, events[1..]);
    }
  }

  predicate WritesOf(cr: Cursor, events: seq<Event>)
  {
    forall i :: 0 <= i < |events| ==> (events[i].Writes? || events[i].Creates?) && events[i].cr == cr
  }

  /** Two views that a rollback of `cr` makes equal. */
  lemma {:induction false} WritesRollBack(v: View, dbOf: Cursor -> Option<string>, cr: Cursor, writes: seq<Event>)
    requires WritesOf(cr, writes) && v.committed <= v.dirty
    ensures RolledBack(Run(v, dbOf, writes), cr) == RolledBack(v, cr)
    decreases |writes|
  {
    if writes != [] {
      var v1 := Step(v, dbOf, writes[0]);
      assert WritesOf(cr, writes[1..]) by {
        assert forall i :: 0 <= i < |writes[1..]| ==> writes[1..][i] == writes[i + 1];
      }
      WritesRollBack(v1, dbOf, cr, writes[1..]);
      assert RolledBack(v1, cr).users == RolledBack(v, cr).users;
      assert RolledBack(v1, cr).dirty == RolledBack(v, cr).dirty;
    }
  }

  /** Commit, any writes, rollback leaves what the commit alone leaves. */
  lemma CommitWritesRollback(v: View, dbOf: Cursor -> Option<string>, cr: Cursor, writes: seq<Event>)
    requires Nested(v) && WritesOf(cr, writes)
    ensures RolledBack(Run(Committed(v, cr), dbOf, writes), cr) == Committed(v, cr)
  {
    var c := Committed(v, cr);
    WritesRollBack(c, dbOf, cr, writes);
    assert RolledBack(c, cr).dirty == c.dirty;
    assert cr in c.committedUsers ==> c.committedUsers[cr] == c.users[cr];
    assert RolledBack(c, cr).users == c.users;
  }

  predicate Touches(dbOf: Cursor -> Option<string>, e: Event, cr: Cursor)
  {
    if e.SignalChanges? then dbOf(cr) == None || dbOf(cr) == Some(e.db) else e.cr == cr
  }

  /** An event on one cursor, or a signal for another database, leaves this cursor's marks alone. */
  lemma OtherCursorsUntouched(v: View, dbOf: Cursor -> Option<string>, e: Event, cr: Cursor, uid: Uid)
    requires !Touches(dbOf, e, cr)
    ensures var v' := Step(v, dbOf, e);
            && (cr in v'.dirty <==> cr in v.dirty)
            && (cr in v'.committed <==> cr in v.committed)
            && UsersAt(v'.users, cr) == UsersAt(v.users, cr)
            && UsersAt(v'.committedUsers, cr) == UsersAt(v.committedUsers, cr)
            && Tainted(v', cr, uid) == Tainted(v, cr, uid)
  {
  }
}
