/**
 * The web UI's upload queue page. The item list is React state whose
 * updaters are pure list transforms; the runner map and the simulated
 * upload intervals are mutable, so the page is a class with the list, the
 * runner map (item id to the handle of the interval its stop clears) and
 * the live intervals, each holding the closure's own progress and speed.
 * Timer scheduling is left to the caller: each interval callback is a
 * method, and the random speeds, ids and handles are parameters or fields.
 */
module UploadPage {
  import opened Wrappers

  datatype Status = Queued | Uploading | Completed | Failed | Canceled

  /** UploadItem, without the browser File object it carries. */
  datatype Item = Item(id: string, name: string, size: int, status: Status, progress: real, error: Option<string>)

  /** What addFiles reads from each File. */
  datatype FileInfo = FileInfo(name: string, size: int)

  /** The closure state of one simulated upload: its item, its progress and its speed in percent per tick. */
  datatype Runner = Runner(id: string, progress: real, speed: real)

  /** The transforms the updaters apply to the matching item. */
  function AsStarted(i: Item): Item { i.(status := Uploading, progress := 0.0, error := None) }
  function AsCanceled(i: Item): Item { i.(status := Canceled) }
  function AsCompleted(i: Item): Item { i.(status := Completed) }
  function WithProgress(p: real): Item -> Item { (i: Item) => i.(progress := p) }

  /** prev.map(i => i.id === id ? f(i) : i): f applied to the items with that id, the others kept. */
  function Update(items: seq<Item>, id: string, f: Item -> Item): (r: seq<Item>)
    ensures |r| == |items|
    ensures forall k :: 0 <= k < |items| ==> r[k] == if items[k].id == id then f(items[k]) else items[k]
  {
    if items == [] then [] else [if items[0].id == id then f(items[0]) else items[0]] + Update(items[1..], id, f)
  }

  /** An update with a transform that keeps the id keeps every id in place. */
  lemma UpdateKeepsIds(items: seq<Item>, id: string, f: Item -> Item)
    requires forall i :: f(i).id == i.id
    ensures forall k :: 0 <= k < |items| ==> Update(items, id, f)[k].id == items[k].id
  {
  }

  /** The number of items with that id. */
  function CountId(items: seq<Item>, id: string): nat {
    if items == [] then 0 else (if items[0].id == id then 1 else 0) + CountId(items[1..], id)
  }

  /** prev.filter(i => i.id !== id): exactly the items with another id, in their order. */
  function Without(items: seq<Item>, id: string): (r: seq<Item>)
    ensures |r| == |items| - CountId(items, id)
    ensures CountId(items, id) == 0 ==> r == items
  {
    if items == [] then []
    else if items[0].id == id then Without(items[1..], id)
    else [items[0]] + Without(items[1..], id)
  }

  /** The filtered list holds exactly the items with another id. */
  lemma {:induction false} WithoutMembers(items: seq<Item>, id: string)
    ensures forall x :: x in Without(items, id) <==> x in items && x.id != id
    decreases |items|
  {
    if items != [] {
      WithoutMembers(items[1..], id);
      assert items == [items[0]] + items[1..];
    }
  }

  /** Where a kept item lands: an item with another id is found in the filtered list. */
  lemma {:induction false} WithoutIndex(items: seq<Item>, id: string, b: nat) returns (k: nat)
    requires b < |items| && items[b].id != id
    ensures k < |Without(items, id)| && Without(items, id)[k] == items[b]
    decreases |items|
  {
    var t := Without(items[1..], id);
    if b == 0 {
      k := 0;
    } else {
      var k'' := WithoutIndex(items[1..], id, b - 1);
      assert items[1..][b - 1] == items[b];
      if items[0].id == id {
        assert Without(items, id) == t;
        k := k'';
      } else {
        assert Without(items, id) == [items[0]] + t;
        k := k'' + 1;
      }
    }
  }

  /** Filtering keeps the relative order: an item before another stays before it. */
  lemma {:induction false} WithoutKeepsOrder(items: seq<Item>, id: string, a: nat, b: nat) returns (a': nat, b': nat)
    requires a < b < |items| && items[a].id != id && items[b].id != id
    ensures a' < b' < |Without(items, id)| && Without(items, id)[a'] == items[a] && Without(items, id)[b'] == items[b]
    decreases |items|
  {
    var t := Without(items[1..], id);
    if a == 0 {
      var b'' := WithoutIndex(items[1..], id, b - 1);
      assert items[1..][b - 1] == items[b];
      var r := [items[0]] + t;
      assert Without(items, id) == r;
      a', b' := 0, b'' + 1;
      assert r[a'] == items[a] && r[b'] == t[b''];
    } else {
      var a'', b'' := WithoutKeepsOrder(items[1..], id, a - 1, b - 1);
      assert items[1..][a - 1] == items[a] && items[1..][b - 1] == items[b];
      if items[0].id == id {
        assert Without(items, id) == t;
        a', b' := a'', b'';
      } else {
        var r := [items[0]] + t;
        assert Without(items, id) == r;
        a', b' := a'' + 1, b'' + 1;
        assert r[a'] == t[a''] && r[b'] == t[b''];
      }
    }
  }

  /** items.some(i => i.status === s). */
  function HasStatus(items: seq<Item>, s: Status): (r: bool)
    ensures r <==> exists k :: 0 <= k < |items| && items[k].status == s
  {
    if items == [] then false
    else if items[0].status == s then true
    else
      var r := HasStatus(items[1..], s);
      assert r ==> exists k :: 1 <= k < |items| && items[k].status == s by {
        if r {
          var k :| 0 <= k < |items[1..]| && items[1..][k].status == s;
          assert items[k + 1].status == s;
        }
      }
      r
  }

  /** The start button: enabled while some item is queued. */
  predicate CanStart(items: seq<Item>): (r: bool)
    ensures r <==> exists k :: 0 <= k < |items| && items[k].status == Queued
  {
    HasStatus(items, Queued)
  }

  /** The clear button: enabled when the list is not empty and nothing is uploading. */
  predicate CanClear(items: seq<Item>): (r: bool)
    ensures r <==> |items| > 0 && forall k :: 0 <= k < |items| ==> items[k].status != Uploading
  {
    |items| > 0 && !HasStatus(items, Uploading)
  }

  /** Clearing is offered only for a non-empty list in which no item is uploading. */
  lemma CanClearMeans(items: seq<Item>)
    ensures CanClear(items) <==> |items| > 0 && forall k :: 0 <= k < |items| ==> items[k].status != Uploading
  {
  }

  /** The ids of the queued items, in list order. */
  function QueuedIds(items: seq<Item>): (r: seq<string>)
    ensures |r| <= |items|
    ensures forall k :: 0 <= k < |items| && items[k].status == Queued ==> items[k].id in r
    ensures forall x :: x in r ==> exists k :: 0 <= k < |items| && items[k].status == Queued && items[k].id == x
  {
    if items == [] then []
    else
      var rest := QueuedIds(items[1..]);
      assert forall x :: x in rest ==> exists k :: 1 <= k < |items| && items[k].status == Queued && items[k].id == x by {
        forall x | x in rest
          ensures exists k :: 1 <= k < |items| && items[k].status == Queued && items[k].id == x
        {
          var k :| 0 <= k < |items[1..]| && items[1..][k].status == Queued && items[1..][k].id == x;
          assert items[k + 1] == items[1..][k];
        }
      }
      assert forall k :: 1 <= k < |items| && items[k].status == Queued ==> items[k].id in rest by {
        forall k | 1 <= k < |items| && items[k].status == Queued
          ensures items[k].id in rest
        {
          assert items[k] == items[1..][k - 1];
        }
      }
      if items[0].status == Queued then [items[0].id] + rest else rest
  }

  /**
   * startAll: the timers it sets, one per item queued at call time (see
   * QueuedIds), in list order, the k-th firing after 120·k ms and starting
   * that item.
   */
  function StartAll(items: seq<Item>): (r: seq<(string, int)>)
    ensures |r| == |QueuedIds(items)|
    ensures forall k :: 0 <= k < |r| ==> r[k] == (QueuedIds(items)[k], 120 * k)
  {
    var ids := QueuedIds(items);
    seq(|ids|, j requires 0 <= j < |ids| => (ids[j], 120 * j))
  }

  /** One tick of a runner: progress = Math.min(100, progress + speed). */
  function RunnerStep(p: real, speed: real): (q: real)
    ensures q <= 100.0 && (q == 100.0 || q == p + speed)
    ensures q == 100.0 ==> p + speed >= 100.0
  {
    if 100.0 < p + speed then 100.0 else p + speed
  }

  /** A runner's progress after n ticks, ticking on at 100 once it is there. */
  ghost function AfterTicks(p: real, speed: real, n: nat): real
    decreases n
  {
    if n == 0 then p else AfterTicks(RunnerStep(p, speed), speed, n - 1)
  }

  /**
   * Every simulated upload finishes: with a speed of at least 3 percent per
   * tick, n ticks that cover the distance to 100 at 3 percent each bring a
   * runner to 100 (from 0, 34 ticks).
   */
  lemma {:induction false} TicksReach100(p: real, speed: real, n: nat)
    requires 0.0 <= p <= 100.0 && speed >= 3.0 && n > 0 && p + 3.0 * n as real >= 100.0
    ensures AfterTicks(p, speed, n) == 100.0
    decreases n
  {
    var q := RunnerStep(p, speed);
    if q == 100.0 {
      StaysAt100(speed, n - 1);
    } else {
      TicksReach100(q, speed, n - 1);
    }
  }

  lemma {:induction false} StaysAt100(speed: real, n: nat)
    requires speed >= 0.0
    ensures AfterTicks(100.0, speed, n) == 100.0
    decreases n
  {
    if n > 0 {
      StaysAt100(speed, n - 1);
    }
  }

  /** The page's state: the item list, the runner map and the live intervals. */
  class Page {
    var items: seq<Item>
    var uploadingMap: map<string, nat>
    var intervals: map<nat, Runner>
    var nextHandle: nat

    /** Every handle in use was issued, and a live runner is below 100 with a speed from 3 up to 10. */
    ghost predicate Valid()
      reads this
    {
      && (forall h :: h in intervals ==> h < nextHandle && 0.0 <= intervals[h].progress < 100.0)
      && (forall h :: h in intervals ==> 3.0 <= intervals[h].speed < 10.0)
      && (forall id :: id in uploadingMap ==> uploadingMap[id] < nextHandle)
    }

    constructor ()
      ensures Valid() && items == [] && uploadingMap == map[] && intervals == map[]
    {
      items, uploadingMap, intervals, nextHandle := [], map[], map[], 0;
    }

    /** addFiles: one queued item at progress 0 per file, appended after the existing items. */
    method AddFiles(files: seq<FileInfo>, ids: seq<string>)
      requires |ids| == |files|
      modifies this`items
      ensures |items| == |old(items)| + |files| && items[..|old(items)|] == old(items)
      ensures forall j :: 0 <= j < |files| ==> items[|old(items)| + j] == Item(ids[j], files[j].name, files[j].size, Queued, 0.0, None)
    {
      var next := items;
      var j := 0;
      while j < |files|
        invariant 0 <= j <= |files| && |next| == |items| + j && next[..|items|] == items
        invariant forall m :: 0 <= m < j ==> next[|items| + m] == Item(ids[m], files[m].name, files[m].size, Queued, 0.0, None)
      {
        next := next + [Item(ids[j], files[j].name, files[j].size, Queued, 0.0, None)];
        j := j + 1;
      }
      items := next;
    }

    /** The stop closure of the runner with handle h, started for item id: clears the interval and marks the item canceled. */
    method Stop(h: nat, id: string)
      modifies this`intervals, this`items
      ensures intervals == old(intervals) - {h}
      ensures items == Update(old(items), id, AsCanceled)
    {
      intervals := intervals - {h};
      items := Update(items, id, AsCanceled);
    }

    /**
     * clearAll: every runner in the map is stopped, then the map and the
     * list are emptied. The stops' own list updates are superseded by the
     * empty list.
     */
    method ClearAll()
      requires Valid()
      modifies this
      ensures Valid()
      ensures items == [] && uploadingMap == map[] && nextHandle == old(nextHandle)
      ensures intervals == old(intervals) - old(uploadingMap).Values
    {
      var iv := intervals;
      var pending := uploadingMap.Keys;
      while pending != {}
        invariant pending <= uploadingMap.Keys
        invariant iv == intervals - (set id | id in uploadingMap && id !in pending :: uploadingMap[id])
        decreases pending
      {
        var id :| id in pending;
        iv := iv - {uploadingMap[id]};
        pending := pending - {id};
      }
      assert (set id | id in uploadingMap :: uploadingMap[id]) == uploadingMap.Values;
      intervals := iv;
      uploadingMap := map[];
      items := [];
    }

    /** removeItem: the item's runner, if any, is stopped and forgotten, and the items with that id are dropped. */
    method RemoveItem(id: string)
      requires Valid()
      modifies this
      ensures Valid()
      ensures items == Without(old(items), id)
      ensures uploadingMap == old(uploadingMap) - {id}
      ensures id in old(uploadingMap) ==> intervals == old(intervals) - {old(uploadingMap)[id]}
      ensures id !in old(uploadingMap) ==> intervals == old(intervals)
    {
      if id in uploadingMap {
        Stop(uploadingMap[id], id);
        WithoutUpdated(old(items), id, AsCanceled);
      }
      uploadingMap := uploadingMap - {id};
      items := Without(items, id);
    }

    /** cancelItem: the item's runner, if any, is stopped and forgotten, and the items with that id become canceled. */
    method CancelItem(id: string)
      requires Valid()
      modifies this
      ensures Valid()
      ensures items == Update(old(items), id, AsCanceled)
      ensures uploadingMap == old(uploadingMap) - {id}
      ensures id in old(uploadingMap) ==> intervals == old(intervals) - {old(uploadingMap)[id]}
      ensures id !in old(uploadingMap) ==> intervals == old(intervals)
    {
      if id in uploadingMap {
        Stop(uploadingMap[id], id);
        CancelTwice(old(items), id);
      }
      uploadingMap := uploadingMap - {id};
      items := Update(items, id, AsCanceled);
    }

    /**
     * startOne: the item is set uploading at progress 0 with its error
     * cleared, and a new runner with the given speed (3 + Math.random() * 7)
     * is started and recorded for it, replacing the map entry of any earlier
     * runner (whose interval keeps running).
     */
    method StartOne(id: string, speed: real) returns (h: nat)
      requires Valid() && 3.0 <= speed < 10.0
      modifies this
      ensures Valid()
      ensures items == Update(old(items), id, AsStarted)
      ensures h == old(nextHandle) && h !in old(intervals)
      ensures intervals == old(intervals)[h := Runner(id, 0.0, speed)]
      ensures uploadingMap == old(uploadingMap)[id := h]
    {
      items := Update(items, id, AsStarted);
      h := nextHandle;
      nextHandle := nextHandle + 1;
      intervals := intervals[h := Runner(id, 0.0, speed)];
      uploadingMap := uploadingMap[id := h];
    }

    /**
     * One tick of the interval with handle h: its progress steps toward
     * 100 and is copied into the item; at 100 the interval is cleared, the
     * map entry of the item's id is deleted and the item is completed.
     */
    method Tick(h: nat) returns (done: bool)
      requires Valid() && h in intervals
      modifies this
      ensures Valid()
      ensures var r := old(intervals[h]); var p := RunnerStep(r.progress, r.speed);
              && (done <==> p >= 100.0)
              && (!done ==> && intervals == old(intervals)[h := r.(progress := p)]
                            && items == Update(old(items), r.id, WithProgress(p))
                            && uploadingMap == old(uploadingMap))
              && (done ==> && intervals == old(intervals) - {h}
                           && items == Update(Update(old(items), r.id, WithProgress(p)), r.id, AsCompleted)
                           && uploadingMap == old(uploadingMap) - {r.id})
      ensures old(intervals[h].progress) < RunnerStep(old(intervals[h].progress), old(intervals[h].speed))
    {
      var r := intervals[h];
      var p := RunnerStep(r.progress, r.speed);
      items := Update(items, r.id, WithProgress(p));
      done := p >= 100.0;
      if done {
        intervals := intervals - {h};
        uploadingMap := uploadingMap - {r.id};
        items := Update(items, r.id, AsCompleted);
      } else {
        intervals := intervals[h := r.(progress := p)];
      }
    }
  }

  /** Dropping the items with an id undoes any change made to those items first. */
  lemma {:induction false} WithoutUpdated(items: seq<Item>, id: string, f: Item -> Item)
    requires forall i :: f(i).id == i.id
    ensures Without(Update(items, id, f), id) == Without(items, id)
    decreases |items|
  {
    if items != [] {
      var u := Update(items, id, f);
      assert u[1..] == Update(items[1..], id, f);
      assert u[0].id == items[0].id;
      WithoutUpdated(items[1..], id, f);
      if items[0].id != id {
        assert u[0] == items[0];
      }
    }
  }

  /** Marking an item canceled twice is marking it once. */
  lemma CancelTwice(items: seq<Item>, id: string)
    ensures Update(Update(items, id, AsCanceled), id, AsCanceled) == Update(items, id, AsCanceled)
  {
    var once := Update(items, id, AsCanceled);
    var twice := Update(once, id, AsCanceled);
    assert |twice| == |once|;
    forall k | 0 <= k < |items|
      ensures twice[k] == once[k]
    {
    }
  }
}
