/** The category table's service: creation under the per-user unique
    name, the owner's listing by name, the owner-checked lookup, and the
    update and delete that go through that lookup. */
module CategoriesService {
  import opened Common
  import opened Domain
  import opened Sorting
  import opened Tables
  import opened CategoryDto

  function OwnedBy(userId: Id): Category -> bool
  {
    (c: Category) => c.userId == userId
  }

  function NamedFor(userId: Id, name: string): Category -> bool
  {
    (c: Category) => c.userId == userId && c.name == name
  }

  /** `findUnique({ where: { userId_name: { userId, name } } })`. */
  function FindByName(cs: seq<Category>, userId: Id, name: string): (r: Option<Category>)
    ensures r.Some? ==> r.value in cs && r.value.userId == userId && r.value.name == name
    ensures r.None? ==> forall k :: 0 <= k < |cs| && cs[k].userId == userId ==> cs[k].name != name
  {
    var k := FirstIndex(cs, NamedFor(userId, name));
    if k.Some? then Some(cs[k.value]) else None
  }

  function CategoryIndex(cs: seq<Category>, id: Id): Option<nat>
  {
    FirstIndex(cs, CategoryHasId(id))
  }

  predicate OwnsCategory(cs: seq<Category>, id: Id, userId: Id)
  {
    var c := FindCategory(cs, id);
    c.Some? && c.value.userId == userId
  }

  /** A category with the number of tasks filed under it (`_count.tasks`). */
  datatype CategoryCount = CategoryCount(category: Category, taskCount: nat)

  /** A category with its tasks (`include: { tasks: true }`). */
  datatype CategoryTasks = CategoryTasks(category: Category, tasks: seq<Task>)

  function InCategory(id: Id): Task -> bool
  {
    (t: Task) => t.categoryId == Some(id)
  }

  function Counted(ts: seq<Task>): Category -> CategoryCount
  {
    (c: Category) => CategoryCount(c, Count(ts, InCategory(c.id)))
  }

  /** The listing: the user's categories by name. */
  function Listing(cs: seq<Category>, ts: seq<Task>, userId: Id): seq<CategoryCount>
  {
    Map(SortAscStr(Filter(cs, OwnedBy(userId)), CategoryName), Counted(ts))
  }

  /** The listing is in ascending name order, one element per category of
      the user, each with the number of tasks filed under it. */
  lemma ListingOrder(cs: seq<Category>, ts: seq<Task>, userId: Id)
    ensures |Listing(cs, ts, userId)| == Count(cs, OwnedBy(userId))
    ensures forall i, j :: 0 <= i < j < |Listing(cs, ts, userId)| ==>
      StrLe(Listing(cs, ts, userId)[i].category.name, Listing(cs, ts, userId)[j].category.name)
    ensures forall i :: 0 <= i < |Listing(cs, ts, userId)| ==>
      Listing(cs, ts, userId)[i].taskCount == Count(ts, InCategory(Listing(cs, ts, userId)[i].category.id))
  {
    var sorted := SortAscStr(Filter(cs, OwnedBy(userId)), CategoryName);
    var l := Listing(cs, ts, userId);
    assert forall i :: 0 <= i < |l| ==> l[i].category == sorted[i];
  }

  /** Only the user's categories are listed. */
  lemma ListingSound(cs: seq<Category>, ts: seq<Task>, userId: Id)
    ensures forall i :: 0 <= i < |Listing(cs, ts, userId)| ==>
      Listing(cs, ts, userId)[i].category in cs && Listing(cs, ts, userId)[i].category.userId == userId
  {
    var kept := Filter(cs, OwnedBy(userId));
    var sorted := SortAscStr(kept, CategoryName);
    var l := Listing(cs, ts, userId);
    FilterMembers(cs, OwnedBy(userId));
    forall i | 0 <= i < |l| ensures l[i].category in cs && l[i].category.userId == userId {
      assert l[i].category == sorted[i];
      assert sorted[i] in multiset(kept);
      var j :| 0 <= j < |kept| && kept[j] == sorted[i];
      assert OwnedBy(userId)(kept[j]);
    }
  }

  /** Every category of the user is listed. */
  lemma ListingComplete(cs: seq<Category>, ts: seq<Task>, userId: Id)
    ensures forall k :: 0 <= k < |cs| && cs[k].userId == userId ==>
      exists i :: 0 <= i < |Listing(cs, ts, userId)| && Listing(cs, ts, userId)[i].category == cs[k]
  {
    var kept := Filter(cs, OwnedBy(userId));
    var sorted := SortAscStr(kept, CategoryName);
    var l := Listing(cs, ts, userId);
    FilterMembers(cs, OwnedBy(userId));
    forall k | 0 <= k < |cs| && cs[k].userId == userId
      ensures exists i :: 0 <= i < |l| && l[i].category == cs[k]
    {
      assert OwnedBy(userId)(cs[k]);
      assert cs[k] in multiset(sorted);
      var i :| 0 <= i < |sorted| && sorted[i] == cs[k];
      assert l[i].category == cs[k];
    }
  }

  /** Under the unique index no two listed categories share a name, so
      the listing is strictly ascending by name. */
  lemma ListingStrict(cs: seq<Category>, ts: seq<Task>, userId: Id)
    requires UniqueNames(cs)
    ensures forall i, j :: 0 <= i < j < |Listing(cs, ts, userId)| ==>
      Listing(cs, ts, userId)[i].category.name != Listing(cs, ts, userId)[j].category.name
  {
    var kept := Filter(cs, OwnedBy(userId));
    var sorted := SortAscStr(kept, CategoryName);
    var l := Listing(cs, ts, userId);
    UniqueNamesFiltered(cs, userId);
    forall i, j | 0 <= i < j < |l| ensures l[i].category.name != l[j].category.name {
      assert l[i].category == sorted[i] && l[j].category == sorted[j];
      SortedNamesDistinct(kept, sorted, i, j);
    }
  }

  /** The user's categories have pairwise different names. */
  lemma UniqueNamesFiltered(cs: seq<Category>, userId: Id)
    requires UniqueNames(cs)
    ensures forall a, b :: 0 <= a < b < |Filter(cs, OwnedBy(userId))| ==>
      Filter(cs, OwnedBy(userId))[a].name != Filter(cs, OwnedBy(userId))[b].name
    decreases |cs|
  {
    if cs != [] {
      UniqueNamesFiltered(cs[1..], userId);
      FilterCons(cs, OwnedBy(userId));
      FilterMembers(cs[1..], OwnedBy(userId));
      var rest := Filter(cs[1..], OwnedBy(userId));
      if cs[0].userId == userId {
        forall b | 0 <= b < |rest| ensures cs[0].name != rest[b].name {
          assert rest[b] in cs[1..];
          var j :| 0 <= j < |cs[1..]| && cs[1..][j] == rest[b];
          assert cs[j + 1] == rest[b];
          assert OwnedBy(userId)(rest[b]);
        }
      }
    }
  }

  /** A permutation of a sequence whose names are pairwise different has
      pairwise different names too. */
  lemma SortedNamesDistinct(kept: seq<Category>, sorted: seq<Category>, i: int, j: int)
    requires multiset(sorted) == multiset(kept) && 0 <= i < j < |sorted|
    requires forall a, b :: 0 <= a < b < |kept| ==> kept[a].name != kept[b].name
    ensures sorted[i].name != sorted[j].name
  {
    if sorted[i].name == sorted[j].name {
      assert sorted[i] in multiset(kept) && sorted[j] in multiset(kept);
      var a :| 0 <= a < |kept| && kept[a] == sorted[i];
      var b :| 0 <= b < |kept| && kept[b] == sorted[j];
      assert a == b;
      assert sorted[i] == sorted[j];
      var both := multiset{sorted[i], sorted[j]};
      assert sorted == sorted[..i] + [sorted[i]] + sorted[i + 1..j] + [sorted[j]] + sorted[j + 1..];
      assert multiset(sorted)[sorted[i]] >= 2;
      assert multiset(kept)[kept[a]] >= 2;
      CountsOnce(kept, a);
      assert false;
    }
  }

  /** An element of a sequence with pairwise distinct names occurs once. */
  lemma {:induction false} CountsOnce(s: seq<Category>, a: int)
    requires 0 <= a < |s|
    requires forall x, y :: 0 <= x < y < |s| ==> s[x].name != s[y].name
    ensures multiset(s)[s[a]] == 1
  {
    var pre := s[..a];
    var post := s[a + 1..];
    assert s == pre + [s[a]] + post;
    forall x | 0 <= x < |pre| ensures pre[x] != s[a] {
      assert pre[x] == s[x] && s[x].name != s[a].name;
    }
    forall x | 0 <= x < |post| ensures post[x] != s[a] {
      assert post[x] == s[a + 1 + x] && s[a].name != s[a + 1 + x].name;
    }
    assert s[a] !in pre && s[a] !in post;
    assert multiset(s) == multiset(pre) + multiset{s[a]} + multiset(post);
  }

  /** The row after an update: a supplied field replaces the stored one. */
  function Renamed(c: Category, b: CategoryBody): (r: Category)
    ensures r.id == c.id && r.userId == c.userId
    ensures r.name == (if b.name.Some? then b.name.value else c.name)
    ensures r.color == (if b.color.Some? then b.color else c.color)
  {
    c.(name := if b.name.Some? then b.name.value else c.name,
       color := if b.color.Some? then b.color else c.color)
  }

  /** The unique index refuses a row whose name another category of the
      same user already has. */
  predicate NameTakenByOther(cs: seq<Category>, k: int, name: string)
    requires 0 <= k < |cs|
  {
    exists j :: 0 <= j < |cs| && j != k && cs[j].userId == cs[k].userId && cs[j].name == name
  }

  lemma RenameKeepsUnique(cs: seq<Category>, k: int, c: Category)
    requires UniqueNames(cs) && DistinctCategoryIds(cs) && 0 <= k < |cs|
    requires c.id == cs[k].id && c.userId == cs[k].userId && !NameTakenByOther(cs, k, c.name)
    ensures UniqueNames(cs[k := c]) && DistinctCategoryIds(cs[k := c])
  {
    var cs' := cs[k := c];
    forall i, j | 0 <= i < j < |cs'| && cs'[i].userId == cs'[j].userId ensures cs'[i].name != cs'[j].name {
      if i == k {
        assert !(cs[j].userId == cs[k].userId && cs[j].name == c.name);
      } else if j == k {
        assert !(cs[i].userId == cs[k].userId && cs[i].name == c.name);
      }
    }
  }

  lemma RemoveKeepsUnique(cs: seq<Category>, k: int)
    requires UniqueNames(cs) && DistinctCategoryIds(cs) && 0 <= k < |cs|
    ensures UniqueNames(RemoveRow(cs, k)) && DistinctCategoryIds(RemoveRow(cs, k))
    ensures forall i :: 0 <= i < |RemoveRow(cs, k)| ==> RemoveRow(cs, k)[i].id != cs[k].id
  {
    var r := RemoveRow(cs, k);
    forall i, j | 0 <= i < j < |r| ensures r[i].id != r[j].id && (r[i].userId == r[j].userId ==> r[i].name != r[j].name) {
      var i' := if i < k then i else i + 1;
      var j' := if j < k then j else j + 1;
      assert r[i] == cs[i'] && r[j] == cs[j'];
    }
    forall i | 0 <= i < |r| ensures r[i].id != cs[k].id {
      var i' := if i < k then i else i + 1;
      assert r[i] == cs[i'];
    }
  }

  class CategoriesService {
    const db: Database

    constructor(db: Database)
      ensures this.db == db
    {
      this.db := db;
    }

    /** create. The body has passed validation; `newId` is the id the
        database assigns. */
    method Create(userId: Id, b: CategoryBody, newId: Id) returns (r: Result<Category, ServiceError>)
      requires db.Valid() && ValidCreate(b)
      requires forall k :: 0 <= k < |db.categories| ==> db.categories[k].id != newId
      modifies db
      ensures db.Valid()
      ensures db.tasks == old(db.tasks) && db.entries == old(db.entries)
      ensures r.Failure? <==> FindByName(old(db.categories), userId, b.name.value).Some?
      ensures r.Failure? ==> r.error == Conflict && db.categories == old(db.categories)
      ensures r.Success? ==>
        r.value == Category(newId, b.name.value, b.color, userId) && db.categories == old(db.categories) + [r.value]
    {
      var existing := FindByName(db.categories, userId, b.name.value);
      if existing.Some? {
        return Failure(Conflict);
      }
      var c := Category(newId, b.name.value, b.color, userId);
      db.categories := db.categories + [c];
      r := Success(c);
    }

    /** findAll. */
    method FindAll(userId: Id) returns (r: seq<CategoryCount>)
      ensures r == Listing(db.categories, db.tasks, userId)
    {
      r := Map(SortAscStr(Filter(db.categories, OwnedBy(userId)), CategoryName), Counted(db.tasks));
    }

    /** findOne: NotFound both for a missing id and for another user's id. */
    method FindOne(id: Id, userId: Id) returns (r: Result<CategoryTasks, ServiceError>)
      ensures r.Failure? <==> !OwnsCategory(db.categories, id, userId)
      ensures r.Failure? ==> r.error == NotFound
      ensures r.Success? ==>
        && CategoryIndex(db.categories, id).Some? && CategoryIndex(db.categories, id).value < |db.categories|
        && r.value.category == db.categories[CategoryIndex(db.categories, id).value]
        && r.value.tasks == Filter(db.tasks, InCategory(id))
    {
      var k := CategoryIndex(db.categories, id);
      if k.None? || db.categories[k.value].userId != userId {
        return Failure(NotFound);
      }
      r := Success(CategoryTasks(db.categories[k.value], Filter(db.tasks, InCategory(id))));
    }

    /** update: the owner check of findOne, then the supplied fields. The
        service does not look for a clash of names itself; the unique index
        refuses one. */
    method Update(id: Id, userId: Id, b: CategoryBody) returns (r: Result<Category, ServiceError>)
      requires db.Valid() && ValidUpdate(b)
      modifies db
      ensures db.Valid()
      ensures db.tasks == old(db.tasks) && db.entries == old(db.entries)
      ensures r == Failure(NotFound) <==> !OwnsCategory(old(db.categories), id, userId)
      ensures r.Failure? ==> db.categories == old(db.categories)
      ensures r.Failure? ==> r.error == NotFound || r.error == UniqueViolation
      ensures OwnsCategory(old(db.categories), id, userId) ==>
        && CategoryIndex(old(db.categories), id).Some? && CategoryIndex(old(db.categories), id).value < |old(db.categories)|
        && (var k := CategoryIndex(old(db.categories), id).value;
            var c := Renamed(old(db.categories)[k], b);
            && (r == Failure(UniqueViolation) <==> NameTakenByOther(old(db.categories), k, c.name))
            && (r.Success? ==> r.value == c && db.categories == old(db.categories)[k := c]))
    {
      var found := FindOne(id, userId);
      if found.Failure? {
        return Failure(NotFound);
      }
      var k := CategoryIndex(db.categories, id).value;
      var c := Renamed(db.categories[k], b);
      if exists j :: 0 <= j < |db.categories| && j != k && db.categories[j].userId == c.userId && db.categories[j].name == c.name {
        return Failure(UniqueViolation);
      }
      RenameKeepsUnique(db.categories, k, c);
      db.categories := db.categories[k := c];
      r := Success(c);
    }

    /** remove: the owner check of findOne, then the row is deleted; the
        tasks' optional relation sets their references to it to null. */
    method Remove(id: Id, userId: Id) returns (r: Result<Category, ServiceError>)
      requires db.Valid()
      modifies db
      ensures db.Valid()
      ensures db.entries == old(db.entries)
      ensures r.Failure? ==> db.tasks == old(db.tasks)
      ensures r.Success? ==> db.tasks == Map(old(db.tasks), DetachFrom(id))
      ensures r.Success? ==> forall i :: 0 <= i < |db.tasks| ==> db.tasks[i].categoryId != Some(id)
      ensures r.Success? && TasksReferenceCategories(old(db.tasks), old(db.categories)) ==> TasksReferenceCategories(db.tasks, db.categories)
      ensures r.Failure? <==> !OwnsCategory(old(db.categories), id, userId)
      ensures r.Failure? ==> r.error == NotFound && db.categories == old(db.categories)
      ensures r.Success? ==>
        && CategoryIndex(old(db.categories), id).Some? && CategoryIndex(old(db.categories), id).value < |old(db.categories)|
        && r.value == old(db.categories)[CategoryIndex(old(db.categories), id).value]
        && db.categories == RemoveRow(old(db.categories), CategoryIndex(old(db.categories), id).value)
        && FindCategory(db.categories, id).None?
    {
      var found := FindOne(id, userId);
      if found.Failure? {
        return Failure(NotFound);
      }
      var k := CategoryIndex(db.categories, id).value;
      var c := db.categories[k];
      RemoveKeepsUnique(db.categories, k);
      DetachKeepsIds(db.tasks, id);
      if TasksReferenceCategories(db.tasks, db.categories) {
        SetNullKeepsReferences(db.tasks, db.categories, k);
      }
      db.tasks := Map(db.tasks, DetachFrom(id));
      db.categories := RemoveRow(db.categories, k);
      r := Success(c);
    }
  }

  /** Create keeps the unique index: a name the user has is refused, and
      a new one leaves all the user's names pairwise different. */
  lemma CreateKeepsUnique(cs: seq<Category>, c: Category)
    requires UniqueNames(cs) && FindByName(cs, c.userId, c.name).None?
    ensures UniqueNames(cs + [c])
  {
  }

  /** Another user's categories are never touched by update or remove:
      their owner check fails first. */
  lemma OthersUntouched(cs: seq<Category>, id: Id, userId: Id, k: int)
    requires DistinctCategoryIds(cs) && 0 <= k < |cs| && cs[k].id == id && cs[k].userId != userId
    ensures !OwnsCategory(cs, id, userId)
  {
    var i := FirstIndex(cs, CategoryHasId(id));
    assert CategoryHasId(id)(cs[k]);
    assert i.Some? && i.value <= k;
  }
}
