/** The `categoryDistribution` of the analytics report: the fetched
    tasks' tracked time gathered per category label in buckets kept in
    first-seen order (a JavaScript Map), then listed by rounded minutes,
    largest first. */
module AnalyticsCategories {
  import opened Common
  import opened Domain
  import opened Sorting
  import opened AnalyticsData

  /** A value of `categoryMap`: the label, the unrounded tracked time of
      its tasks in milliseconds, and the colour of the task that opened it. */
  datatype Bucket = Bucket(name: string, ms: int, color: string)

  function BucketMs(b: Bucket): int { b.ms }

  /** `categoryMap.get(name)`: where the bucket with that name is. */
  function IndexOfName(bs: seq<Bucket>, name: string): (r: Option<nat>)
    ensures r.Some? ==> r.value < |bs| && bs[r.value].name == name
    ensures r.None? ==> forall k :: 0 <= k < |bs| ==> bs[k].name != name
  {
    if bs == [] then None
    else if bs[0].name == name then Some(0)
    else
      var r := IndexOfName(bs[1..], name);
      assert forall k :: 1 <= k < |bs| ==> bs[k] == bs[1..][k - 1];
      if r.Some? then Some(r.value + 1) else None
  }

  /** One step of the forEach: the task's time is added to the bucket of
      its label, or opens a new bucket at the end. */
  function AddTask(bs: seq<Bucket>, d: TaskDetail): seq<Bucket>
  {
    var name := CategoryLabel(d);
    var k := IndexOfName(bs, name);
    if k.Some? then bs[k.value := bs[k.value].(ms := bs[k.value].ms + TrackedMs(d))]
    else bs + [Bucket(name, TrackedMs(d), CategoryColor(d))]
  }

  /** The buckets after the forEach has visited every task of f in order. */
  function CategoryFold(f: seq<TaskDetail>): seq<Bucket>
  {
    if f == [] then [] else AddTask(CategoryFold(f[..|f| - 1]), f[|f| - 1])
  }

  /** The forEach that fills `categoryMap`, updating an existing bucket in
      place (`existing.minutes += totalMinutes`). */
  method CategoryBuckets(f: seq<TaskDetail>) returns (bs: seq<Bucket>)
    ensures bs == CategoryFold(f)
  {
    bs := [];
    var i := 0;
    while i < |f|
      invariant 0 <= i <= |f|
      invariant bs == CategoryFold(f[..i])
    {
      bs := AddToBucket(bs, f[i]);
      FoldStep(f, i);
      i := i + 1;
    }
    assert f[..i] == f;
  }

  /** The forEach's body for one task. */
  method AddToBucket(bs: seq<Bucket>, d: TaskDetail) returns (r: seq<Bucket>)
    ensures r == AddTask(bs, d)
  {
    var name := CategoryLabel(d);
    var color := CategoryColor(d);
    var ms := TrackedMs(d);
    var existing := IndexOfName(bs, name);
    if existing.Some? {
      var k := existing.value;
      r := bs[k := bs[k].(ms := bs[k].ms + ms)];
    } else {
      r := bs + [Bucket(name, ms, color)];
    }
  }

  /** One more task visited is one more step. */
  lemma FoldStep(f: seq<TaskDetail>, i: int)
    requires 0 <= i < |f|
    ensures CategoryFold(f[..i + 1]) == AddTask(CategoryFold(f[..i]), f[i])
  {
    assert f[..i + 1][..i] == f[..i];
  }

  /** The tracked time of the tasks of f that carry a label. */
  function LabelMs(f: seq<TaskDetail>, name: string): int
  {
    if f == [] then 0
    else LabelMs(f[..|f| - 1], name) + (if CategoryLabel(f[|f| - 1]) == name then TrackedMs(f[|f| - 1]) else 0)
  }

  /** What one step does: an existing bucket keeps its name and colour;
      the bucket of the task's label gains the task's time, or, when there
      is none, a new bucket for the label is appended. */
  lemma AddTaskShape(bs: seq<Bucket>, d: TaskDetail)
    ensures |AddTask(bs, d)| >= |bs|
    ensures forall k :: 0 <= k < |bs| ==> AddTask(bs, d)[k].name == bs[k].name && AddTask(bs, d)[k].color == bs[k].color
    ensures IndexOfName(bs, CategoryLabel(d)).Some? ==>
      && |AddTask(bs, d)| == |bs|
      && AddTask(bs, d)[IndexOfName(bs, CategoryLabel(d)).value].ms == bs[IndexOfName(bs, CategoryLabel(d)).value].ms + TrackedMs(d)
      && (forall k :: 0 <= k < |bs| && k != IndexOfName(bs, CategoryLabel(d)).value ==> AddTask(bs, d)[k].ms == bs[k].ms)
    ensures IndexOfName(bs, CategoryLabel(d)).None? ==>
      AddTask(bs, d) == bs + [Bucket(CategoryLabel(d), TrackedMs(d), CategoryColor(d))]
  {
  }

  /** No two buckets share a name. */
  lemma {:induction false} FoldNamesDistinct(f: seq<TaskDetail>)
    ensures forall k, l :: 0 <= k < l < |CategoryFold(f)| ==> CategoryFold(f)[k].name != CategoryFold(f)[l].name
  {
    if f != [] {
      var n := |f| - 1;
      var bs0 := CategoryFold(f[..n]);
      var bs := CategoryFold(f);
      assert bs == AddTask(bs0, f[n]);
      FoldNamesDistinct(f[..n]);
      AddTaskShape(bs0, f[n]);
      var found := IndexOfName(bs0, CategoryLabel(f[n]));
      forall k, l | 0 <= k < l < |bs| ensures bs[k].name != bs[l].name {
        if l < |bs0| {
          assert bs0[k].name != bs0[l].name;
        } else {
          assert found.None? && bs[l].name == CategoryLabel(f[n]);
          assert bs0[k].name != CategoryLabel(f[n]);
        }
      }
    }
  }

  /** Some bucket has that name. */
  ghost predicate HasBucket(bs: seq<Bucket>, name: string)
  {
    exists k :: 0 <= k < |bs| && bs[k].name == name
  }

  /** Some task carries that label. */
  ghost predicate HasLabel(f: seq<TaskDetail>, name: string)
  {
    exists i :: 0 <= i < |f| && CategoryLabel(f[i]) == name
  }

  /** Adding a task keeps every bucket name and adds the task's label, and
      no other name. */
  lemma AddTaskNames(bs0: seq<Bucket>, d: TaskDetail, name: string)
    ensures HasBucket(AddTask(bs0, d), name) <==> HasBucket(bs0, name) || name == CategoryLabel(d)
  {
    var bs := AddTask(bs0, d);
    AddTaskShape(bs0, d);
    var found := IndexOfName(bs0, CategoryLabel(d));
    if HasBucket(bs, name) {
      var k :| 0 <= k < |bs| && bs[k].name == name;
      if k < |bs0| {
        assert bs0[k].name == name;
      }
    }
    if HasBucket(bs0, name) {
      var k :| 0 <= k < |bs0| && bs0[k].name == name;
      assert bs[k].name == name;
    }
    if name == CategoryLabel(d) {
      if found.Some? {
        assert bs[found.value].name == name;
      } else {
        assert bs[|bs0|].name == name;
      }
    }
  }

  /** A label is carried by a non-empty list when it is carried by all but
      the last task, or by the last. */
  lemma HasLabelLast(f: seq<TaskDetail>, name: string)
    requires f != []
    ensures HasLabel(f, name) <==> HasLabel(f[..|f| - 1], name) || CategoryLabel(f[|f| - 1]) == name
  {
    var g := f[..|f| - 1];
    if HasLabel(f, name) {
      var i :| 0 <= i < |f| && CategoryLabel(f[i]) == name;
      if i < |g| {
        assert g[i] == f[i];
      }
    }
    if HasLabel(g, name) {
      var i :| 0 <= i < |g| && CategoryLabel(g[i]) == name;
      assert f[i] == g[i];
    }
  }

  /** There is a bucket for a name exactly when some task carries that label. */
  lemma {:induction false} FoldNames(f: seq<TaskDetail>, name: string)
    ensures HasBucket(CategoryFold(f), name) <==> HasLabel(f, name)
  {
    if f != [] {
      var n := |f| - 1;
      FoldNames(f[..n], name);
      assert CategoryFold(f) == AddTask(CategoryFold(f[..n]), f[n]);
      AddTaskNames(CategoryFold(f[..n]), f[n], name);
      HasLabelLast(f, name);
    }
  }

  /** Each bucket's unrounded time is the sum of its tasks' unrounded times. */
  lemma {:induction false} FoldMs(f: seq<TaskDetail>)
    ensures forall k :: 0 <= k < |CategoryFold(f)| ==> CategoryFold(f)[k].ms == LabelMs(f, CategoryFold(f)[k].name)
  {
    if f != [] {
      var n := |f| - 1;
      var g := f[..n];
      FoldMs(g);
      FoldNamesDistinct(g);
      var bs0 := CategoryFold(g);
      var bs := CategoryFold(f);
      assert bs == AddTask(bs0, f[n]);
      AddTaskShape(bs0, f[n]);
      var lab := CategoryLabel(f[n]);
      var found := IndexOfName(bs0, lab);
      forall k | 0 <= k < |bs|
        ensures bs[k].ms == LabelMs(f, bs[k].name)
      {
        assert LabelMs(f, bs[k].name) == LabelMs(g, bs[k].name) + (if lab == bs[k].name then TrackedMs(f[n]) else 0);
        if k >= |bs0| {
          NoBucketNoTime(g, lab);
        }
      }
    }
  }

  /** A label without a bucket has no tracked time. */
  lemma {:induction false} NoBucketNoTime(f: seq<TaskDetail>, name: string)
    requires forall k :: 0 <= k < |CategoryFold(f)| ==> CategoryFold(f)[k].name != name
    ensures LabelMs(f, name) == 0
  {
    if f != [] {
      var n := |f| - 1;
      var g := f[..n];
      var bs0 := CategoryFold(g);
      var bs := CategoryFold(f);
      assert bs == AddTask(bs0, f[n]);
      AddTaskShape(bs0, f[n]);
      assert forall k :: 0 <= k < |bs0| ==> bs0[k].name == bs[k].name;
      var found := IndexOfName(bs0, CategoryLabel(f[n]));
      if found.None? {
        assert bs[|bs0|].name == CategoryLabel(f[n]);
      }
      NoBucketNoTime(g, name);
    }
  }

  /** A bucket's colour is that of the first task carrying its label. */
  lemma {:induction false} FoldColor(f: seq<TaskDetail>, k: int)
    requires 0 <= k < |CategoryFold(f)|
    ensures var b := CategoryFold(f)[k];
      exists i :: 0 <= i < |f| && CategoryLabel(f[i]) == b.name && b.color == CategoryColor(f[i])
        && forall h :: 0 <= h < i ==> CategoryLabel(f[h]) != b.name
  {
    var n := |f| - 1;
    var g := f[..n];
    var bs0 := CategoryFold(g);
    var bs := CategoryFold(f);
    assert bs == AddTask(bs0, f[n]);
    AddTaskShape(bs0, f[n]);
    var lab := CategoryLabel(f[n]);
    if k < |bs0| {
      FoldColor(g, k);
      var i :| 0 <= i < |g| && CategoryLabel(g[i]) == bs0[k].name && bs0[k].color == CategoryColor(g[i])
        && forall h :: 0 <= h < i ==> CategoryLabel(g[h]) != bs0[k].name;
      assert f[i] == g[i];
      assert forall h :: 0 <= h < i ==> f[h] == g[h];
    } else {
      FoldNames(g, lab);
      assert forall h :: 0 <= h < n ==> f[h] == g[h];
      assert CategoryLabel(f[n]) == bs[k].name;
    }
  }

  /** The buckets split the total: their times add up to the tracked time
      of all fetched tasks. */
  lemma {:induction false} FoldCover(f: seq<TaskDetail>)
    ensures SumOf(CategoryFold(f), BucketMs) == SumOf(f, TrackedMs)
  {
    if f != [] {
      var n := |f| - 1;
      var g := f[..n];
      FoldCover(g);
      assert CategoryFold(f) == AddTask(CategoryFold(g), f[n]);
      AddTaskSum(CategoryFold(g), f[n]);
      SumOfLast(f, TrackedMs);
    }
  }

  /** Adding a task to the buckets adds its tracked time to their total. */
  lemma AddTaskSum(bs0: seq<Bucket>, d: TaskDetail)
    ensures SumOf(AddTask(bs0, d), BucketMs) == SumOf(bs0, BucketMs) + TrackedMs(d)
  {
    var bs := AddTask(bs0, d);
    AddTaskShape(bs0, d);
    var found := IndexOfName(bs0, CategoryLabel(d));
    if found.Some? {
      var k := found.value;
      assert bs == bs0[k := bs[k]];
      SumOfUpdate(bs0, k, bs[k], BucketMs);
    } else {
      SumOfSnoc(bs0, bs[|bs0|], BucketMs);
    }
  }

  /** One record of `categoryDistribution`: minutes and hundredths of an
      hour rounded from the bucket's unrounded time. */
  datatype CategoryShare = CategoryShare(category: string, minutes: int, hours: int, color: string)

  function ShareMinutes(c: CategoryShare): int { c.minutes }

  function ShareOf(b: Bucket): (c: CategoryShare)
    ensures c.category == b.name && c.color == b.color
    ensures 2 * MsPerMinute * c.minutes <= 2 * b.ms + MsPerMinute < 2 * MsPerMinute * (c.minutes + 1)
    ensures 2 * MsPerCentiHour * c.hours <= 2 * b.ms + MsPerCentiHour < 2 * MsPerCentiHour * (c.hours + 1)
  {
    CategoryShare(b.name, RoundDiv(b.ms, MsPerMinute), RoundDiv(b.ms, MsPerCentiHour), b.color)
  }

  /** The distribution for the fetched tasks: one share per bucket, most
      minutes first. */
  function Distribution(f: seq<TaskDetail>): seq<CategoryShare>
  {
    SortDesc(Map(CategoryFold(f), ShareOf), ShareMinutes)
  }

  /** The distribution holds one share per distinct label of the fetched
      tasks, sorted by minutes, largest first, each share rounded from the
      sum of its tasks' unrounded times. */
  lemma DistributionShares(f: seq<TaskDetail>, name: string)
    ensures SortedDesc(Distribution(f), ShareMinutes)
    ensures forall k, l :: 0 <= k < l < |Distribution(f)| ==> Distribution(f)[k].category != Distribution(f)[l].category
    ensures HasShare(Distribution(f), name) <==> HasLabel(f, name)
    ensures forall k :: 0 <= k < |Distribution(f)| ==>
      Distribution(f)[k].minutes == RoundDiv(LabelMs(f, Distribution(f)[k].category), MsPerMinute)
  {
    forall k, l | 0 <= k < l < |Distribution(f)|
      ensures Distribution(f)[k].category != Distribution(f)[l].category
    {
      DistinctShares(f, k, l);
    }
    DistributionNames(f, name);
    DistributionMinutes(f);
  }

  /** A category has a share exactly when some fetched task carries it. */
  lemma DistributionNames(f: seq<TaskDetail>, name: string)
    ensures HasShare(Distribution(f), name) <==> HasLabel(f, name)
  {
    FoldNames(f, name);
    ShareNames(CategoryFold(f), name);
  }

  /** Some share has that category. */
  ghost predicate HasShare(r: seq<CategoryShare>, name: string)
  {
    exists k :: 0 <= k < |r| && r[k].category == name
  }

  /** The sorted shares of buckets carry exactly the buckets' names. */
  lemma ShareNames(bs: seq<Bucket>, name: string)
    ensures HasShare(SortDesc(Map(bs, ShareOf), ShareMinutes), name) <==> HasBucket(bs, name)
  {
    var r := SortDesc(Map(bs, ShareOf), ShareMinutes);
    SortedMapMembers(bs, ShareOf, ShareMinutes);
    if HasBucket(bs, name) {
      var j :| 0 <= j < |bs| && bs[j].name == name;
      ShareOfMember(r, bs[j]);
    }
    if HasShare(r, name) {
      var k :| 0 <= k < |r| && r[k].category == name;
      var j :| 0 <= j < |bs| && r[k] == ShareOf(bs[j]);
      assert bs[j].name == name;
    }
  }

  /** The share of a bucket among the shares gives its name a share. */
  lemma ShareOfMember(r: seq<CategoryShare>, b: Bucket)
    requires ShareOf(b) in r
    ensures HasShare(r, b.name)
  {
    var k :| 0 <= k < |r| && r[k] == ShareOf(b);
  }

  /** Each share's minutes are rounded from its category's tracked time. */
  lemma DistributionMinutes(f: seq<TaskDetail>)
    ensures forall k :: 0 <= k < |Distribution(f)| ==>
      Distribution(f)[k].minutes == RoundDiv(LabelMs(f, Distribution(f)[k].category), MsPerMinute)
  {
    FoldMs(f);
    ShareMinutesOf(CategoryFold(f), f);
  }

  /** Buckets holding the labels' times give shares of the labels' rounded
      minutes. */
  lemma ShareMinutesOf(bs: seq<Bucket>, f: seq<TaskDetail>)
    requires forall k :: 0 <= k < |bs| ==> bs[k].ms == LabelMs(f, bs[k].name)
    ensures forall k :: 0 <= k < |SortDesc(Map(bs, ShareOf), ShareMinutes)| ==>
      SortDesc(Map(bs, ShareOf), ShareMinutes)[k].minutes
        == RoundDiv(LabelMs(f, SortDesc(Map(bs, ShareOf), ShareMinutes)[k].category), MsPerMinute)
  {
    var r := SortDesc(Map(bs, ShareOf), ShareMinutes);
    SortedMapMembers(bs, ShareOf, ShareMinutes);
    forall k | 0 <= k < |r| ensures r[k].minutes == RoundDiv(LabelMs(f, r[k].category), MsPerMinute) {
      var j :| 0 <= j < |bs| && r[k] == ShareOf(bs[j]);
    }
  }

  /** Two positions of the distribution carry different categories. */
  lemma DistinctShares(f: seq<TaskDetail>, k: int, l: int)
    requires 0 <= k < l < |Distribution(f)|
    ensures Distribution(f)[k].category != Distribution(f)[l].category
  {
    var bs := CategoryFold(f);
    var shares := Map(bs, ShareOf);
    FoldNamesDistinct(f);
    assert forall i, j :: 0 <= i < j < |shares| ==> shares[i].category != shares[j].category by {
      forall i, j | 0 <= i < j < |shares| ensures shares[i].category != shares[j].category {
        assert shares[i].category == bs[i].name && shares[j].category == bs[j].name;
      }
    }
    assert Distribution(f) == SortDesc(shares, ShareMinutes);
    PermutedCategoriesDistinct(shares, Distribution(f), k, l);
  }

  /** Reordering shares of distinct categories keeps them distinct. */
  lemma PermutedCategoriesDistinct(shares: seq<CategoryShare>, r: seq<CategoryShare>, k: int, l: int)
    requires multiset(shares) == multiset(r)
    requires forall i, j :: 0 <= i < j < |shares| ==> shares[i].category != shares[j].category
    requires 0 <= k < l < |r|
    ensures r[k].category != r[l].category
  {
    if r[k].category == r[l].category {
      assert r[k] in multiset(r) && r[l] in multiset(r);
      assert r[k] in shares && r[l] in shares;
      var a :| 0 <= a < |shares| && shares[a] == r[k];
      var b :| 0 <= b < |shares| && shares[b] == r[l];
      assert a == b;
      TwiceCounted(r, k, l);
      OnceCounted(shares, a);
    }
  }

  /** An element that occurs at two positions is counted at least twice. */
  lemma TwiceCounted<T>(s: seq<T>, k: int, l: int)
    requires 0 <= k < l < |s| && s[k] == s[l]
    ensures multiset(s)[s[k]] >= 2
  {
    assert s == s[..k] + [s[k]] + s[k + 1..l] + [s[l]] + s[l + 1..];
  }

  /** A share of a bucket that is the only one with its name is counted once. */
  lemma OnceCounted(shares: seq<CategoryShare>, a: int)
    requires 0 <= a < |shares|
    requires forall k, l :: 0 <= k < l < |shares| ==> shares[k].category != shares[l].category
    ensures multiset(shares)[shares[a]] == 1
  {
    var x := shares[a];
    assert shares == shares[..a] + [x] + shares[a + 1..];
    assert x !in shares[..a] by {
      forall j | 0 <= j < a ensures shares[..a][j] != x { assert shares[j].category != shares[a].category; }
    }
    assert x !in shares[a + 1..] by {
      var tail := shares[a + 1..];
      forall j | 0 <= j < |tail| ensures tail[j] != x {
        assert tail[j] == shares[a + 1 + j];
      }
    }
    assert multiset(shares[..a])[x] == 0;
    assert multiset(shares[a + 1..])[x] == 0;
  }
}
