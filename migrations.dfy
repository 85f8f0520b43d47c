// The legacy-data backfill of backend/services/migrations.py: essays of a
// user that are not linked to an application get the id of the user's
// application with the same stripped, lower-cased school and program. The
// schema migrations in the same file are SQL DDL and are not modelled.
module Migrations {
  import opened Wrappers
  import opened Text
  import opened Seqs
  import opened TrackerDb

  /** `value or ""` on a nullable text column. */
  function OrEmpty(s: Option<string>): string
  {
    if s.Some? then s.value else ""
  }

  /** The (school, program) pair the backfill matches on. */
  type Key = (string, string)

  function KeyOf(school: Option<string>, program: Option<string>): Key
  {
    (Lower(Trim(OrEmpty(school))), Lower(Trim(OrEmpty(program))))
  }

  function AppKey(a: Application): Key { KeyOf(a.schoolName, a.programName) }

  function EssayKey(e: Essay): Key { KeyOf(e.schoolName, e.programType) }

  /** The applications of the user, in query order. */
  function ApplicationsOf(apps: seq<Application>, userId: int): seq<Application>
  {
    Filter(apps, (a: Application) => a.userId == userId)
  }

  /**
   * A dictionary built from entries in order, a later entry overwriting an
   * earlier one with the same key. Its keys are exactly the entries' keys.
   */
  function LastWins<K(!new), V>(entries: seq<(K, V)>): (m: map<K, V>)
    ensures forall k :: k in m <==> exists i :: 0 <= i < |entries| && entries[i].0 == k
    decreases |entries|
  {
    if entries == [] then map[]
    else
      var n := |entries| - 1;
      var earlier := LastWins(entries[..n]);
      assert forall i :: 0 <= i < n ==> entries[..n][i] == entries[i];
      earlier[entries[n].0 := entries[n].1]
  }

  /** A key maps to the value of its last entry. */
  lemma {:induction false} LastEntryWins<K(!new), V>(entries: seq<(K, V)>, i: nat)
    requires i < |entries|
    requires forall j :: i < j < |entries| ==> entries[j].0 != entries[i].0
    ensures entries[i].0 in LastWins(entries) && LastWins(entries)[entries[i].0] == entries[i].1
    decreases |entries|
  {
    var n := |entries| - 1;
    var init := entries[..n];
    assert LastWins(entries) == LastWins(init)[entries[n].0 := entries[n].1];
    if i < n {
      assert forall j :: 0 <= j < n ==> init[j] == entries[j];
      LastEntryWins(init, i);
    }
  }

  /** Every value comes from an entry with that key. */
  lemma {:induction false} LastWinsValues<K(!new), V>(entries: seq<(K, V)>)
    ensures forall k :: k in LastWins(entries) ==> exists i :: 0 <= i < |entries| && entries[i] == (k, LastWins(entries)[k])
    decreases |entries|
  {
    if entries != [] {
      var n := |entries| - 1;
      LastWinsValues(entries[..n]);
      forall k | k in LastWins(entries)
        ensures exists i :: 0 <= i < |entries| && entries[i] == (k, LastWins(entries)[k])
      {
        if k != entries[n].0 {
          var i :| 0 <= i < n && entries[..n][i] == (k, LastWins(entries[..n])[k]);
          assert entries[i] == entries[..n][i];
        }
      }
    }
  }

  /** The (key, id) pairs of the applications, in query order. */
  function Entries(apps: seq<Application>): (r: seq<(Key, int)>)
    ensures |r| == |apps|
    ensures forall i :: 0 <= i < |apps| ==> r[i] == (AppKey(apps[i]), apps[i].id)
  {
    seq(|apps|, i requires 0 <= i < |apps| => (AppKey(apps[i]), apps[i].id))
  }

  /** `application_lookup`: the dictionary comprehension from keys to ids. */
  function Lookup(apps: seq<Application>): map<Key, int>
  {
    LastWins(Entries(apps))
  }

  /** On duplicate keys the later application wins: a key maps to the id of its last application. */
  lemma LookupLastWins(apps: seq<Application>, i: nat)
    requires i < |apps|
    requires forall j :: i < j < |apps| ==> AppKey(apps[j]) != AppKey(apps[i])
    ensures AppKey(apps[i]) in Lookup(apps) && Lookup(apps)[AppKey(apps[i])] == apps[i].id
  {
    LastEntryWins(Entries(apps), i);
  }

  /** The rows the essay query of the backfill selects: this user's, with no application. */
  predicate Unlinked(e: Essay, userId: int)
  {
    e.userId == userId && e.applicationId.None?
  }

  /** The id one essay with this key is linked to, when it is selected and its key has a truthy match. */
  function MatchFor(e: Essay, key: Key, userId: int, lookup: map<Key, int>): Option<int>
  {
    if Unlinked(e, userId) && key in lookup && lookup[key] != 0 then Some(lookup[key]) else None
  }

  /** One pass of the loop body over one essay with this key. */
  function Linked(e: Essay, key: Key, userId: int, lookup: map<Key, int>): Essay
  {
    match MatchFor(e, key, userId, lookup)
    case None => e
    case Some(id) => e.(applicationId := Some(id))
  }

  /** The keys of the essays, in table order. */
  function EssayKeys(essays: seq<Essay>): (r: seq<Key>)
    ensures |r| == |essays|
  {
    if essays == [] then [] else EssayKeys(essays[..|essays| - 1]) + [EssayKey(essays[|essays| - 1])]
  }

  /** The key at a position is that essay's key. */
  lemma {:induction false} EssayKeysAt(essays: seq<Essay>, i: int)
    requires 0 <= i < |essays|
    ensures EssayKeys(essays)[i] == EssayKey(essays[i])
    decreases |essays|
  {
    if i < |essays| - 1 {
      EssayKeysAt(essays[..|essays| - 1], i);
    }
  }

  /** Every essay after one pass of the loop, given the essays' keys. */
  function LinkAll(essays: seq<Essay>, keys: seq<Key>, userId: int, lookup: map<Key, int>): (r: seq<Essay>)
    requires |keys| == |essays|
    ensures |r| == |essays|
    ensures forall i :: 0 <= i < |essays| ==> r[i] == Linked(essays[i], keys[i], userId, lookup)
  {
    seq(|essays|, i requires 0 <= i < |essays| => Linked(essays[i], keys[i], userId, lookup))
  }

  /** Linking keeps every row's id, and so their uniqueness. */
  lemma LinkAllKeepsIds(essays: seq<Essay>, keys: seq<Key>, userId: int, lookup: map<Key, int>)
    requires |keys| == |essays|
    ensures forall j :: 0 <= j < |essays| ==> LinkAll(essays, keys, userId, lookup)[j].id == essays[j].id
    ensures UniqueEssayIds(essays) ==> UniqueEssayIds(LinkAll(essays, keys, userId, lookup))
  {
    var r := LinkAll(essays, keys, userId, lookup);
    assert forall j :: 0 <= j < |essays| ==> r[j].id == essays[j].id;
  }

  /** The essays after `backfill_essay_application_links`; `BackfilledSpec` states what they are. */
  function Backfilled(essays: seq<Essay>, apps: seq<Application>, userId: int): (r: seq<Essay>)
    ensures |r| == |essays|
  {
    var mine := ApplicationsOf(apps, userId);
    if mine == [] then essays
    else LinkAll(essays, EssayKeys(essays), userId, Lookup(mine))
  }

  /**
   * Nothing changes without applications; a backfill only ever sets the
   * application of a selected essay, and keeps every other column and row.
   */
  lemma BackfilledShape(essays: seq<Essay>, apps: seq<Application>, userId: int)
    ensures ApplicationsOf(apps, userId) == [] ==> Backfilled(essays, apps, userId) == essays
    ensures forall i :: 0 <= i < |essays| ==>
      Backfilled(essays, apps, userId)[i] == essays[i].(applicationId := Backfilled(essays, apps, userId)[i].applicationId)
    ensures forall i :: (0 <= i < |essays| && Backfilled(essays, apps, userId)[i] != essays[i]) ==>
      Unlinked(essays[i], userId) && Backfilled(essays, apps, userId)[i].applicationId.Some?
  {
  }

  /**
   * Each selected essay whose key has a truthy match gets the matched id,
   * which is the id of one of the user's applications with the same key;
   * a selected essay without one is left as it was.
   */
  lemma BackfilledLinksMatches(essays: seq<Essay>, apps: seq<Application>, userId: int)
    ensures forall i :: (0 <= i < |essays| && Unlinked(essays[i], userId)) ==>
      match MatchFor(essays[i], EssayKey(essays[i]), userId, Lookup(ApplicationsOf(apps, userId)))
      case None => Backfilled(essays, apps, userId)[i] == essays[i]
      case Some(id) =>
        (Backfilled(essays, apps, userId)[i].applicationId == Some(id)
         && exists j :: 0 <= j < |apps| && apps[j].userId == userId && apps[j].id == id && AppKey(apps[j]) == EssayKey(essays[i]))
  {
    var lookup := Lookup(ApplicationsOf(apps, userId));
    var r := Backfilled(essays, apps, userId);
    MatchesAnApplication(apps, userId);
    forall i | 0 <= i < |essays| && Unlinked(essays[i], userId)
      ensures match MatchFor(essays[i], EssayKey(essays[i]), userId, lookup)
        case None => r[i] == essays[i]
        case Some(id) =>
          (r[i].applicationId == Some(id)
           && exists j :: 0 <= j < |apps| && apps[j].userId == userId && apps[j].id == id && AppKey(apps[j]) == EssayKey(essays[i]))
    {
      EssayKeysAt(essays, i);
      if ApplicationsOf(apps, userId) == [] {
        assert lookup == map[];
      }
    }
  }

  /** The id the lookup gives for a key is the id of one of the user's applications with that key. */
  lemma MatchesAnApplication(apps: seq<Application>, userId: int)
    ensures forall k :: k in Lookup(ApplicationsOf(apps, userId)) ==>
      exists j :: (0 <= j < |apps| && apps[j].userId == userId && apps[j].id == Lookup(ApplicationsOf(apps, userId))[k]
                  && AppKey(apps[j]) == k)
  {
    var mine := ApplicationsOf(apps, userId);
    LastWinsValues(Entries(mine));
    FilterMembers(apps, (a: Application) => a.userId == userId);
    forall k | k in Lookup(mine)
      ensures exists j :: (0 <= j < |apps| && apps[j].userId == userId && apps[j].id == Lookup(mine)[k]
                          && AppKey(apps[j]) == k)
    {
      var i :| 0 <= i < |mine| && Entries(mine)[i] == (k, Lookup(mine)[k]);
      assert mine[i] in apps;
      var j :| 0 <= j < |apps| && apps[j] == mine[i];
    }
  }

  /** Tables whose rows agree on school and program have the same keys. */
  lemma {:induction false} SameKeys(a: seq<Essay>, b: seq<Essay>)
    requires |a| == |b|
    requires forall i :: 0 <= i < |a| ==> a[i].schoolName == b[i].schoolName && a[i].programType == b[i].programType
    ensures EssayKeys(a) == EssayKeys(b)
    decreases |a|
  {
    if a != [] {
      var n := |a| - 1;
      SameKeys(a[..n], b[..n]);
      assert EssayKey(a[n]) == EssayKey(b[n]);
    }
  }

  /** A second backfill changes nothing: a linked essay is no longer selected. */
  lemma BackfillIdempotent(essays: seq<Essay>, apps: seq<Application>, userId: int)
    ensures Backfilled(Backfilled(essays, apps, userId), apps, userId) == Backfilled(essays, apps, userId)
  {
    var once := Backfilled(essays, apps, userId);
    BackfilledShape(essays, apps, userId);
    if ApplicationsOf(apps, userId) != [] {
      var lookup := Lookup(ApplicationsOf(apps, userId));
      var keys := EssayKeys(essays);
      SameKeys(once, essays);
      var twice := LinkAll(once, keys, userId, lookup);
      forall i | 0 <= i < |once|
        ensures twice[i] == once[i]
      {
        if once[i] != essays[i] {
          assert !Unlinked(once[i], userId);
        }
      }
      assert twice == once;
    }
  }

  /**
   * The loop of `backfill_essay_application_links` over the selected
   * essays, given the lookup and each essay's key: each one whose key has a
   * truthy match gets that id. It reports whether any essay changed.
   */
  method LinkEssays(essays: seq<Essay>, keys: seq<Key>, userId: int, lookup: map<Key, int>)
    returns (linked: seq<Essay>, changed: bool)
    requires |keys| == |essays|
    ensures linked == LinkAll(essays, keys, userId, lookup)
    ensures changed <==> linked != essays
  {
    linked := essays;
    changed := false;
    var i := 0;
    while i < |essays|
      invariant 0 <= i <= |essays| == |linked|
      invariant forall j :: 0 <= j < i ==> linked[j] == Linked(essays[j], keys[j], userId, lookup)
      invariant forall j :: i <= j < |essays| ==> linked[j] == essays[j]
      invariant changed <==> exists j :: 0 <= j < i && linked[j] != essays[j]
    {
      var essay := essays[i];
      if Unlinked(essay, userId) {
        var key := keys[i];
        if key in lookup && lookup[key] != 0 {
          linked := linked[i := essay.(applicationId := Some(lookup[key]))];
          changed := true;
        }
      }
      i := i + 1;
    }
    assert linked == LinkAll(essays, keys, userId, lookup);
  }

  /**
   * `backfill_essay_application_links`: nothing happens without
   * applications; otherwise the loop over the selected essays links each
   * match, and the commit happens exactly when some essay changed.
   */
  method BackfillEssayApplicationLinks(db: Tables, userId: int) returns (committed: bool)
    requires db.Valid()
    modifies db
    ensures db.Valid()
    ensures db.applications == old(db.applications)
    ensures db.essays == Backfilled(old(db.essays), old(db.applications), userId)
    ensures committed <==> db.essays != old(db.essays)
  {
    var applications := ApplicationsOf(db.applications, userId);
    if applications == [] {
      return false;
    }
    var essays, changed := LinkEssays(db.essays, EssayKeys(db.essays), userId, Lookup(applications));
    LinkAllKeepsIds(db.essays, EssayKeys(db.essays), userId, Lookup(applications));
    db.essays := essays;
    committed := changed;
  }
}
