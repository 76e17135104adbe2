/** What a join's writes by row id do: when they land, for whom, and which groups they add. */
module JoinWrites {
  import opened GroupKinds
  import opened IdentityLink
  import opened MembershipCaps

  /** The row found still belongs to the person the join counted, or there was none. */
  predicate Mine(db: Tables, target: Target) {
    target.existing.None? || (target.existing.value in db.rows && db.rows[target.existing.value].person == target.person)
  }

  /** The row found has moved to someone else. */
  predicate Strays(db: Tables, target: Target) {
    target.existing.Some? && target.existing.value in db.rows && db.rows[target.existing.value].person != target.person
  }

  ghost predicate CanWrite(db: Tables, group: GroupId, target: Target) {
    if target.existing.Some? then target.existing.value in db.rows
    else !IsMember(db.rows, group, target.person) && target.person in db.people
  }

  /** The database accepts every write. */
  ghost predicate Lands(db: Tables, group: GroupId, targets: seq<Target>) {
    forall i :: 0 <= i < |targets| ==> CanWrite(db, group, targets[i])
  }

  function Owners(db: Tables, targets: seq<Target>): set<Person> {
    set i | 0 <= i < |targets| :: Owner(db, targets[i])
  }

  lemma OwnersTouch(db: Tables, targets: seq<Target>, people: set<Person>)
    ensures Touches(db, targets, people) <==> Owners(db, targets) * people != {}
  {
    if Touches(db, targets, people) {
      var i :| 0 <= i < |targets| && Owner(db, targets[i]) in people;
      assert Owner(db, targets[i]) in Owners(db, targets) * people;
    }
    if Owners(db, targets) * people != {} {
      var p :| p in Owners(db, targets) * people;
    }
  }

  /** Writing for some leaves what a further write needs as it was. */
  lemma NextCanWrite(db: Tables, group: GroupId, rest: seq<Target>, last: Target)
    requires Shape(db) && Known(db, group, rest) && Known(db, group, [last]) && group in db.groups && WriteAll(db, group, rest).Some?
    requires last.person !in People(rest)
    ensures CanWrite(WriteAll(db, group, rest).value, group, last) <==> CanWrite(db, group, last)
  {
    hide WriteAll, Shape;
    var before := WriteAll(db, group, rest).value;
    WriteAllKeeps(db, group, rest);
    assert [last][0] == last;
    if IsMember(db.rows, group, last.person) {
      var id :| id in db.rows && db.rows[id].group == group && db.rows[id].person == last.person;
      InUse(db, id);
      assert before.rows[id].person == last.person;
    }
    if IsMember(before.rows, group, last.person) {
      var id :| id in before.rows && before.rows[id].group == group && before.rows[id].person == last.person;
      WriteAllRows(db, group, rest, id);
    }
  }

  lemma InUse(db: Tables, id: RowId)
    requires Shape(db) && id in db.rows
    ensures id < db.next
  {
  }

  lemma {:induction false} LandsIff(db: Tables, group: GroupId, targets: seq<Target>)
    requires Shape(db) && Known(db, group, targets) && group in db.groups && DistinctPeople(targets)
    ensures WriteAll(db, group, targets).Some? <==> Lands(db, group, targets)
  {
    hide Shape, CanWrite;
    if targets != [] {
      var rest, last := targets[..|targets| - 1], targets[|targets| - 1];
      LandsIff(db, group, rest);
      assert Lands(db, group, targets) <==> Lands(db, group, rest) && CanWrite(db, group, last) by {
        assert forall i :: 0 <= i < |targets| ==> targets[i] == if i < |rest| then rest[i] else last;
      }
      if WriteAll(db, group, rest).Some? {
        NextCanWrite(db, group, rest, last);
        WriteOneLands(WriteAll(db, group, rest).value, group, last);
      }
    }
  }

  lemma WriteOneLands(db: Tables, group: GroupId, target: Target)
    ensures WriteOne(db, group, target).Some? <==> CanWrite(db, group, target)
  {
  }

  lemma WriteOneAdds(db: Tables, group: GroupId, target: Target, game: string, kind: string, people: set<Person>)
    requires Shape(db) && Known(db, group, [target]) && InSlot(db.groups, group, game, kind) && db.groups[group].live
    requires WriteOne(db, group, target).Some?
    ensures
      var after := WriteOne(db, group, target).value;
      && ActiveGroups(db.rows, db.groups, game, kind, people) <= ActiveGroups(after.rows, after.groups, game, kind, people)
      && (Owner(db, target) in people ==> group in ActiveGroups(after.rows, after.groups, game, kind, people))
  {
    var after := WriteOne(db, group, target).value;
    assert [target][0] == target;
    forall g | g in ActiveGroups(db.rows, db.groups, game, kind, people)
      ensures g in ActiveGroups(after.rows, after.groups, game, kind, people)
    {
      var id :| id in db.rows && Counts(db.rows[id], db.groups, game, kind, people) && db.rows[id].group == g;
      assert Counts(after.rows[id], after.groups, game, kind, people);
    }
    if Owner(db, target) in people {
      var id := if target.existing.Some? then target.existing.value else db.next;
      assert Counts(after.rows[id], after.groups, game, kind, people);
    }
  }

  lemma {:induction false} WriteAllAdds(db: Tables, group: GroupId, targets: seq<Target>, game: string, kind: string, people: set<Person>)
    requires Shape(db) && Known(db, group, targets) && InSlot(db.groups, group, game, kind) && db.groups[group].live
    requires WriteAll(db, group, targets).Some?
    ensures
      var after := WriteAll(db, group, targets).value;
      && ActiveGroups(db.rows, db.groups, game, kind, people) <= ActiveGroups(after.rows, after.groups, game, kind, people)
      && (Touches(db, targets, people) ==> group in ActiveGroups(after.rows, after.groups, game, kind, people))
  {
    hide Shape, WriteOne, ActiveGroups;
    if targets != [] {
      var rest, last := targets[..|targets| - 1], targets[|targets| - 1];
      WriteAllAdds(db, group, rest, game, kind, people);
      WriteAllKeeps(db, group, rest);
      var before := WriteAll(db, group, rest).value;
      assert Known(before, group, [last]);
      assert Owner(before, last) == Owner(db, last);
      WriteOneAdds(before, group, last, game, kind, people);
      assert Touches(db, targets, people) ==> Touches(db, rest, people) || Owner(db, last) in people by {
        if Touches(db, targets, people) {
          var i :| 0 <= i < |targets| && Owner(db, targets[i]) in people;
          if i < |rest| {
            assert rest[i] == targets[i];
          }
        }
      }
    }
  }

  /** Exactly: the join's group, for exactly the people its rows belong to. */
  lemma JoinAddsExactly(db: Tables, group: GroupId, targets: seq<Target>, game: string, kind: string, people: set<Person>)
    requires Shape(db) && Known(db, group, targets) && InSlot(db.groups, group, game, kind) && db.groups[group].live
    requires WriteAll(db, group, targets).Some?
    ensures
      var after := WriteAll(db, group, targets).value;
      ActiveGroups(after.rows, after.groups, game, kind, people) ==
      ActiveGroups(db.rows, db.groups, game, kind, people) + (if Owners(db, targets) * people != {} then {group} else {})
  {
    hide WriteAll, Shape, ActiveGroups, Owners, Touches;
    OwnersTouch(db, targets, people);
    WriteAllGrows(db, group, targets, game, kind, people);
    WriteAllAdds(db, group, targets, game, kind, people);
  }

  /** In which groups someone is a member changes only for the people written for. */
  lemma JoinLeavesOthersMembers(db: Tables, group: GroupId, targets: seq<Target>, person: Person, h: GroupId)
    requires Shape(db) && Known(db, group, targets) && group in db.groups && WriteAll(db, group, targets).Some?
    ensures IsMember(db.rows, h, person) ==> IsMember(WriteAll(db, group, targets).value.rows, h, person)
    ensures person !in People(targets) ==> (IsMember(WriteAll(db, group, targets).value.rows, h, person) ==> IsMember(db.rows, h, person))
  {
    hide WriteAll, Shape;
    var after := WriteAll(db, group, targets).value;
    WriteAllKeeps(db, group, targets);
    if IsMember(db.rows, h, person) {
      var id :| id in db.rows && db.rows[id].group == h && db.rows[id].person == person;
      InUse(db, id);
      assert after.rows[id].person == person && after.rows[id].group == h;
    }
    if IsMember(after.rows, h, person) && person !in People(targets) {
      var id :| id in after.rows && after.rows[id].group == h && after.rows[id].person == person;
      WriteAllRows(db, group, targets, id);
    }
  }
}
