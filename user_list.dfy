/** The user records held by the user-management form, and the three list
    transformations its handlers apply to them: append the created record,
    replace by id (`users.map`), and remove by id (`users.filter`). */
module UserList {

  /** A user as the REST API returns it. */
  datatype User = User(id: int, name: string, email: string)

  /** Number of records in `users` whose id is `id`. */
  function CountId(users: seq<User>, id: int): (n: nat)
    ensures n <= |users|
    ensures n == 0 <==> forall i :: 0 <= i < |users| ==> users[i].id != id
  {
    if users == [] then 0
    else (if users[0].id == id then 1 else 0) + CountId(users[1..], id)
  }

  /** No two records share an id, as the server's primary key promises. */
  ghost predicate UniqueIds(users: seq<User>)
  {
    forall i, j :: 0 <= i < j < |users| ==> users[i].id != users[j].id
  }

  /** The update: every record whose id is `id` becomes `record`, every other
      record stays where it was. */
  function ReplaceById(users: seq<User>, id: int, record: User): (r: seq<User>)
    ensures |r| == |users|
    ensures forall i :: 0 <= i < |users| ==>
              r[i] == if users[i].id == id then record else users[i]
  {
    if users == [] then []
    else [if users[0].id == id then record else users[0]] + ReplaceById(users[1..], id, record)
  }

  /** The delete: keep exactly the records whose id is not `id`. */
  function RemoveById(users: seq<User>, id: int): (r: seq<User>)
    ensures forall u :: u in r <==> u in users && u.id != id
    ensures |r| == |users| - CountId(users, id)
  {
    if users == [] then []
    else
      if users[0].id == id then RemoveById(users[1..], id)
      else [users[0]] + RemoveById(users[1..], id)
  }

  /** Deleting keeps every other record with its multiplicity and drops every
      record with the deleted id. */
  lemma {:induction false} RemoveByIdMultiset(users: seq<User>, id: int, u: User)
    ensures multiset(RemoveById(users, id))[u] == if u.id == id then 0 else multiset(users)[u]
  {
    if users != [] {
      RemoveByIdMultiset(users[1..], id, u);
      assert users == [users[0]] + users[1..];
    }
  }

  /** Counting ids distributes over concatenation. */
  lemma {:induction false} CountIdConcat(a: seq<User>, b: seq<User>, id: int)
    ensures CountId(a + b, id) == CountId(a, id) + CountId(b, id)
  {
    if a == [] {
      assert a + b == b;
    } else {
      assert (a + b)[1..] == a[1..] + b;
      CountIdConcat(a[1..], b, id);
    }
  }

  /** In a list without duplicate ids, an id occurs at most once. */
  lemma {:induction false} UniqueCountAtMostOne(users: seq<User>, id: int)
    requires UniqueIds(users)
    ensures CountId(users, id) <= 1
  {
    if users != [] {
      assert UniqueIds(users[1..]) by {
        forall i, j | 0 <= i < j < |users| - 1
          ensures users[1..][i].id != users[1..][j].id
        {
          assert users[1..][i] == users[i + 1] && users[1..][j] == users[j + 1];
        }
      }
      UniqueCountAtMostOne(users[1..], id);
      if users[0].id == id {
        forall i | 0 <= i < |users[1..]| ensures users[1..][i].id != id {
          assert users[1..][i] == users[i + 1];
        }
      }
    }
  }

  /** Filtering preserves relative order: removing by id from a concatenation
      removes from each part separately. */
  lemma {:induction false} RemoveByIdConcat(a: seq<User>, b: seq<User>, id: int)
    ensures RemoveById(a + b, id) == RemoveById(a, id) + RemoveById(b, id)
  {
    if a == [] {
      assert a + b == b;
    } else {
      assert (a + b)[0] == a[0];
      assert (a + b)[1..] == a[1..] + b;
      RemoveByIdConcat(a[1..], b, id);
    }
  }

  /** Removing an id that no record carries leaves the list as it was. */
  lemma {:induction false} RemoveByIdAbsent(users: seq<User>, id: int)
    requires CountId(users, id) == 0
    ensures RemoveById(users, id) == users
  {
    if users != [] {
      assert CountId(users[1..], id) == 0;
      RemoveByIdAbsent(users[1..], id);
      assert users == [users[0]] + users[1..];
    }
  }

  /** Deleting the same id twice is the same as deleting it once. */
  lemma RemoveByIdIdempotent(users: seq<User>, id: int)
    ensures RemoveById(RemoveById(users, id), id) == RemoveById(users, id)
  {
  }

  /** Deleting an id that exactly one record carries shortens the list by one. */
  lemma DeleteShrinksByOne(users: seq<User>, i: int)
    requires UniqueIds(users)
    requires 0 <= i < |users|
    ensures |RemoveById(users, users[i].id)| == |users| - 1
  {
    UniqueCountAtMostOne(users, users[i].id);
  }

  /** A record with a fresh id, once appended, occurs exactly once by id. */
  lemma AppendedOnce(users: seq<User>, record: User)
    requires CountId(users, record.id) == 0
    ensures CountId(users + [record], record.id) == 1
  {
    CountIdConcat(users, [record], record.id);
    assert [record][1..] == [];
  }

  /** Appending a record with a fresh id keeps ids unique. */
  lemma AppendKeepsUnique(users: seq<User>, record: User)
    requires UniqueIds(users)
    requires CountId(users, record.id) == 0
    ensures UniqueIds(users + [record])
  {
  }

  /** Replacing by id with a record that carries that same id keeps ids unique. */
  lemma ReplaceKeepsUnique(users: seq<User>, id: int, record: User)
    requires UniqueIds(users)
    requires record.id == id
    ensures UniqueIds(ReplaceById(users, id, record))
  {
  }

  /** A list without duplicate ids splits into a head whose id the tail does
      not carry and a tail without duplicate ids, and conversely. */
  lemma UniqueCons(head: User, tail: seq<User>)
    ensures UniqueIds([head] + tail) <==>
              UniqueIds(tail) && forall x :: x in tail ==> x.id != head.id
  {
    var s := [head] + tail;
    if UniqueIds(s) {
      forall i, j | 0 <= i < j < |tail| ensures tail[i].id != tail[j].id {
        assert tail[i] == s[i + 1] && tail[j] == s[j + 1];
      }
      forall x | x in tail ensures x.id != head.id {
        var m :| 0 <= m < |tail| && tail[m] == x;
        assert s[0] == head && s[m + 1] == x;
        assert s[0].id != s[m + 1].id;
      }
    }
    if UniqueIds(tail) && forall x :: x in tail ==> x.id != head.id {
      forall i, j | 0 <= i < j < |s| ensures s[i].id != s[j].id {
        if i == 0 {
          assert s[j] == tail[j - 1];
          assert s[j] in tail;
        } else {
          assert s[i] == tail[i - 1] && s[j] == tail[j - 1];
        }
      }
    }
  }

  /** Deleting by id keeps ids unique. */
  lemma {:induction false} RemoveKeepsUnique(users: seq<User>, id: int)
    requires UniqueIds(users)
    ensures UniqueIds(RemoveById(users, id))
  {
    if users != [] {
      assert users == [users[0]] + users[1..];
      UniqueCons(users[0], users[1..]);
      RemoveKeepsUnique(users[1..], id);
      if users[0].id != id {
        UniqueCons(users[0], RemoveById(users[1..], id));
      }
    }
  }
}
