/**
 Keyset pagination. A key stands for where the collation puts a record: by name, or by
 creation time and then id. The cursor codec is injective and stays abstract.
 */
module Pagination {
  import opened Common
  import opened StableSort

  datatype Key = Key(primary: real, secondary: real)

  predicate Lt(a: Key, b: Key) { a.primary < b.primary || (a.primary == b.primary && a.secondary < b.secondary) }

  predicate Past(key: Key, cursor: Option<Key>) { cursor.None? || Lt(cursor.value, key) }

  datatype Page<T> = Page(items: seq<T>, next: Option<Key>)

  function ByKey<T>(keyOf: T -> Key): (T, T) -> bool { (a, b) => Lt(keyOf(a), keyOf(b)) }

  function PastCursor<T>(keyOf: T -> Key, cursor: Option<Key>): T -> bool { r => Past(keyOf(r), cursor) }

  /** The sorted records past the cursor. */
  function Eligible<T>(records: seq<T>, keyOf: T -> Key, cursor: Option<Key>): seq<T> {
    Filter(Sort(records, ByKey(keyOf)), PastCursor(keyOf, cursor))
  }

  function Cut<T>(eligible: seq<T>, keyOf: T -> Key, limit: nat): Page<T> {
    var items := if |eligible| <= limit then eligible else eligible[..limit];
    Page(items, if |eligible| > limit && items != [] then Some(keyOf(Last(items))) else None)
  }

  function Paginate<T>(records: seq<T>, keyOf: T -> Key, cursor: Option<Key>, limit: nat): Page<T> {
    Cut(Eligible(records, keyOf, cursor), keyOf, limit)
  }

  function PaginateNamed<T>(records: seq<T>, nameOf: T -> real, cursor: Option<Key>, limit: nat): Page<T> {
    Paginate(records, r => Key(nameOf(r), 0.0), cursor, limit)
  }

  function PaginateCreated<T>(records: seq<T>, createdAtOf: T -> real, idOf: T -> real, cursor: Option<Key>, limit: nat): Page<T> {
    Paginate(records, r => Key(createdAtOf(r), idOf(r)), cursor, limit)
  }

  // ---------------------------------------------------------------- one page

  ghost predicate UniqueKeys<T>(records: seq<T>, keyOf: T -> Key) {
    forall i, j :: 0 <= i < j < |records| ==> keyOf(records[i]) != keyOf(records[j])
  }

  ghost predicate Ascending<T>(s: seq<T>, keyOf: T -> Key) {
    forall i, j :: 0 <= i < j < |s| ==> Lt(keyOf(s[i]), keyOf(s[j]))
  }

  ghost predicate NotDescending<T>(s: seq<T>, keyOf: T -> Key) {
    forall i, j :: 0 <= i < j < |s| ==> !Lt(keyOf(s[j]), keyOf(s[i]))
  }

  lemma {:induction false} FilterIs<T>(s: seq<T>, keep: T -> bool)
    ensures forall x :: x in Filter(s, keep) ==> x in s && keep(x)
    ensures forall x :: x in s && keep(x) ==> x in Filter(s, keep)
    ensures |Filter(s, keep)| <= |s|
  {
    if s == [] {
    } else {
      FilterIs(s[1..], keep);
    }
  }

  lemma {:induction false} FilterKeepsOrder<T>(s: seq<T>, keep: T -> bool, keyOf: T -> Key)
    ensures NotDescending(s, keyOf) ==> NotDescending(Filter(s, keep), keyOf)
    ensures Ascending(s, keyOf) ==> Ascending(Filter(s, keep), keyOf)
  {
    if s == [] {
    } else {
      FilterKeepsOrder(s[1..], keep, keyOf);
      FilterIs(s[1..], keep);
      var rest := Filter(s[1..], keep);
      forall k | 0 <= k < |rest|
        ensures NotDescending(s, keyOf) ==> !Lt(keyOf(rest[k]), keyOf(s[0]))
        ensures Ascending(s, keyOf) ==> Lt(keyOf(s[0]), keyOf(rest[k]))
      {
        var x := rest[k];
        assert x in rest;
        assert x in s[1..] && keep(x);
        var i :| 0 <= i < |s[1..]| && s[1..][i] == x;
        assert s[i + 1] == x;
      }
    }
  }

  lemma SortedRecords<T(!new)>(records: seq<T>, keyOf: T -> Key)
    ensures NotDescending(Sort(records, ByKey(keyOf)), keyOf)
    ensures forall r :: r in Sort(records, ByKey(keyOf)) <==> r in records
  {
    SortIsPermutation(records, ByKey(keyOf));
    SortSorts(records, ByKey(keyOf));
  }

  /** No element of a sequence with unique keys occurs twice in its sorted form either. */
  lemma SortedUnique<T(!new)>(records: seq<T>, keyOf: T -> Key)
    requires UniqueKeys(records, keyOf)
    ensures Ascending(Sort(records, ByKey(keyOf)), keyOf)
  {
    SortedRecords(records, keyOf);
    SortKeepsUnique(records, keyOf);
  }

  lemma {:induction false} SortKeepsUnique<T(!new)>(records: seq<T>, keyOf: T -> Key)
    requires UniqueKeys(records, keyOf)
    ensures UniqueKeys(Sort(records, ByKey(keyOf)), keyOf)
  {
    if records == [] {
    } else {
      SortKeepsUnique(records[1..], keyOf);
      SortIsPermutation(records[1..], ByKey(keyOf));
      var rest := Sort(records[1..], ByKey(keyOf));
      forall k | 0 <= k < |rest| ensures keyOf(rest[k]) != keyOf(records[0]) {
        assert rest[k] in rest && rest[k] in records[1..];
        var i :| 0 <= i < |records[1..]| && records[1..][i] == rest[k];
        assert records[i + 1] == rest[k];
      }
      InsertKeepsUnique(records[0], rest, keyOf);
    }
  }

  lemma {:induction false} InsertKeepsUnique<T(!new)>(x: T, s: seq<T>, keyOf: T -> Key)
    requires UniqueKeys(s, keyOf) && forall k :: 0 <= k < |s| ==> keyOf(s[k]) != keyOf(x)
    ensures UniqueKeys(Insert(x, s, ByKey(keyOf)), keyOf)
  {
    if s != [] && ByKey(keyOf)(s[0], x) {
      InsertKeepsUnique(x, s[1..], keyOf);
      InsertKeepsElements(x, s[1..], ByKey(keyOf));
      var rest := Insert(x, s[1..], ByKey(keyOf));
      forall k | 0 <= k < |rest| ensures keyOf(rest[k]) != keyOf(s[0]) {
        assert rest[k] in multiset(rest);
        assert rest[k] == x || rest[k] in s[1..];
      }
    }
  }

  lemma EligibleIs<T(!new)>(records: seq<T>, keyOf: T -> Key, cursor: Option<Key>)
    ensures forall r :: r in Eligible(records, keyOf, cursor) <==> r in records && Past(keyOf(r), cursor)
    ensures NotDescending(Eligible(records, keyOf, cursor), keyOf)
    ensures UniqueKeys(records, keyOf) ==> Ascending(Eligible(records, keyOf, cursor), keyOf)
  {
    var sorted := Sort(records, ByKey(keyOf));
    SortedRecords(records, keyOf);
    FilterIs(sorted, PastCursor(keyOf, cursor));
    FilterKeepsOrder(sorted, PastCursor(keyOf, cursor), keyOf);
    if UniqueKeys(records, keyOf) {
      SortedUnique(records, keyOf);
    }
  }

  /** What one page promises on unique keys. */
  lemma PageIs<T(!new)>(records: seq<T>, keyOf: T -> Key, cursor: Option<Key>, limit: nat)
    requires limit >= 1 && UniqueKeys(records, keyOf)
    ensures var p := Paginate(records, keyOf, cursor, limit);
            && |p.items| <= limit && Ascending(p.items, keyOf)
            && (forall r :: r in p.items ==> r in records && Past(keyOf(r), cursor))
            && (p.next.Some? ==> p.items != [] && p.next.value == keyOf(Last(p.items)))
            && (forall r :: r in records && Past(keyOf(r), cursor) ==>
                  r in p.items || (p.next.Some? && Lt(p.next.value, keyOf(r))))
  {
    EligibleIs(records, keyOf, cursor);
    CutIs(Eligible(records, keyOf, cursor), keyOf, limit);
    hide Eligible, Cut, Past, Ascending, NotDescending, UniqueKeys;
  }

  /** A cut of a rising sequence: its head, and a cursor that what is left out is past. */
  lemma CutIs<T(!new)>(e: seq<T>, keyOf: T -> Key, limit: nat)
    requires limit >= 1 && Ascending(e, keyOf)
    ensures var p := Cut(e, keyOf, limit);
            && |p.items| <= limit && Ascending(p.items, keyOf)
            && (p.next.Some? ==> p.items != [] && p.next.value == keyOf(Last(p.items)))
            && (forall r :: r in p.items ==> r in e)
            && (forall r :: r in e ==> r in p.items || (p.next.Some? && Lt(p.next.value, keyOf(r))))
  {
    var p := Cut(e, keyOf, limit);
    forall r | r in e ensures r in p.items || (p.next.Some? && Lt(p.next.value, keyOf(r))) {
      var i :| 0 <= i < |e| && e[i] == r;
      if i < |p.items| {
        assert p.items[i] == r;
      } else {
        assert Last(p.items) == e[limit - 1];
      }
    }
  }

  /** Pages by name are in name order. */
  lemma NamedPageIs<T(!new)>(records: seq<T>, nameOf: T -> real, cursor: Option<Key>, limit: nat)
    requires limit >= 1 && forall i, j :: 0 <= i < j < |records| ==> nameOf(records[i]) != nameOf(records[j])
    ensures var items := PaginateNamed(records, nameOf, cursor, limit).items;
            forall i, j :: 0 <= i < j < |items| ==> nameOf(items[i]) < nameOf(items[j])
  {
    var keyOf: T -> Key := r => Key(nameOf(r), 0.0);
    PageIs(records, keyOf, cursor, limit);
    hide Paginate;
    var items := Paginate(records, keyOf, cursor, limit).items;
    forall i, j | 0 <= i < j < |items| ensures nameOf(items[i]) < nameOf(items[j]) {
      assert Lt(keyOf(items[i]), keyOf(items[j]));
    }
  }

  /** Pages by creation are oldest first, and by id where two were created at once. */
  lemma CreatedPageIs<T(!new)>(records: seq<T>, createdAtOf: T -> real, idOf: T -> real, cursor: Option<Key>, limit: nat)
    requires limit >= 1
    requires forall i, j :: 0 <= i < j < |records| ==>
               createdAtOf(records[i]) != createdAtOf(records[j]) || idOf(records[i]) != idOf(records[j])
    ensures var items := PaginateCreated(records, createdAtOf, idOf, cursor, limit).items;
            forall i, j :: 0 <= i < j < |items| ==>
              createdAtOf(items[i]) < createdAtOf(items[j])
              || (createdAtOf(items[i]) == createdAtOf(items[j]) && idOf(items[i]) < idOf(items[j]))
  {
    var keyOf: T -> Key := r => Key(createdAtOf(r), idOf(r));
    PageIs(records, keyOf, cursor, limit);
    hide Paginate;
    var items := Paginate(records, keyOf, cursor, limit).items;
    forall i, j | 0 <= i < j < |items|
      ensures createdAtOf(items[i]) < createdAtOf(items[j])
              || (createdAtOf(items[i]) == createdAtOf(items[j]) && idOf(items[i]) < idOf(items[j]))
    {
      assert Lt(keyOf(items[i]), keyOf(items[j]));
    }
  }

  // ---------------------------------------------------------------- following cursors while records change

  /** The `k`th page is one read of the store, from the cursor the previous page gave. */
  ghost predicate ReadAt<T>(stores: seq<seq<T>>, keyOf: T -> Key, limit: nat, pages: seq<Page<T>>, k: nat)
    requires |pages| == |stores| && k < |stores|
  {
    && (k > 0 ==> pages[k - 1].next.Some?)
    && pages[k] == Paginate(stores[k], keyOf, CursorAt(pages, k), limit)
  }

  ghost predicate Reads<T>(stores: seq<seq<T>>, keyOf: T -> Key, limit: nat, pages: seq<Page<T>>) {
    |pages| == |stores| && forall k :: 0 <= k < |stores| ==> ReadAt(stores, keyOf, limit, pages, k)
  }

  function CursorAt<T>(pages: seq<Page<T>>, k: nat): Option<Key>
    requires k <= |pages|
  {
    if k == 0 then None else pages[k - 1].next
  }

  function Served<T>(pages: seq<Page<T>>): seq<T> {
    if pages == [] then [] else Served(Front(pages)) + Last(pages).items
  }

  lemma ReadsFront<T>(stores: seq<seq<T>>, keyOf: T -> Key, limit: nat, pages: seq<Page<T>>)
    requires Reads(stores, keyOf, limit, pages) && pages != []
    ensures Reads(Front(stores), keyOf, limit, Front(pages))
    ensures Last(pages) == Paginate(Last(stores), keyOf, CursorAt(pages, |pages| - 1), limit)
    ensures |pages| > 1 ==> Last(Front(pages)).next.Some? && CursorAt(pages, |pages| - 1) == Last(Front(pages)).next
  {
    hide Paginate;
    var front := Front(pages);
    forall k | 0 <= k < |front| ensures ReadAt(Front(stores), keyOf, limit, front, k) {
      assert ReadAt(stores, keyOf, limit, pages, k);
    }
    assert ReadAt(stores, keyOf, limit, pages, |front|);
  }

  /** Nothing in the sequence is past the cursor, if there is one. */
  ghost predicate UpTo<T>(s: seq<T>, keyOf: T -> Key, cursor: Option<Key>) {
    cursor.Some? ==> forall i :: 0 <= i < |s| ==> !Lt(cursor.value, keyOf(s[i]))
  }

  /** A rising page of keys past the cursor extends a rising sequence of keys up to it. */
  lemma AppendPage<T>(before: seq<T>, keyOf: T -> Key, cursor: Option<Key>, page: seq<T>, next: Option<Key>)
    requires Ascending(before, keyOf) && UpTo(before, keyOf, cursor) && (before != [] ==> cursor.Some?)
    requires Ascending(page, keyOf) && forall i :: 0 <= i < |page| ==> Past(keyOf(page[i]), cursor)
    requires next.Some? ==> page != [] && next.value == keyOf(Last(page))
    ensures Ascending(before + page, keyOf) && UpTo(before + page, keyOf, next)
  {
    forall i, j | 0 <= i < |before| && 0 <= j < |page| ensures Lt(keyOf(before[i]), keyOf(page[j])) {
      assert !Lt(cursor.value, keyOf(before[i]));
    }
    forall i | 0 <= i < |page| && next.Some? ensures !Lt(next.value, keyOf(page[i])) {
      assert i < |page| - 1 ==> Lt(keyOf(page[i]), keyOf(page[|page| - 1]));
    }
  }

  /** However the store changes between reads, no key is served twice: keys only ever rise. */
  lemma {:induction false} NoKeyTwice<T(!new)>(stores: seq<seq<T>>, keyOf: T -> Key, limit: nat, pages: seq<Page<T>>)
    requires limit >= 1 && Reads(stores, keyOf, limit, pages) && forall s :: s in stores ==> UniqueKeys(s, keyOf)
    ensures Ascending(Served(pages), keyOf)
    ensures UpTo(Served(pages), keyOf, CursorAt(pages, |pages|))
  {
    hide Paginate, UniqueKeys;
    if pages != [] {
      ReadsFront(stores, keyOf, limit, pages);
      assert Last(stores) in stores;
      assert forall s :: s in Front(stores) ==> s in stores;
      NoKeyTwice(Front(stores), keyOf, limit, Front(pages));
      var page, cursor := Last(pages), CursorAt(pages, |pages| - 1);
      assert CursorAt(Front(pages), |pages| - 1) == cursor;
      PageIs(Last(stores), keyOf, cursor, limit);
      forall i | 0 <= i < |page.items| ensures Past(keyOf(page.items[i]), cursor) {
        assert page.items[i] in page.items;
      }
      AppendPage(Served(Front(pages)), keyOf, cursor, page.items, page.next);
    }
  }

  lemma {:induction false} ServedOrAhead<T(!new)>(
      stores: seq<seq<T>>, keyOf: T -> Key, limit: nat, pages: seq<Page<T>>, r: T)
    requires limit >= 1 && Reads(stores, keyOf, limit, pages)
    requires forall s :: s in stores ==> UniqueKeys(s, keyOf) && r in s
    ensures r in Served(pages) || pages == [] || (Last(pages).next.Some? && Lt(Last(pages).next.value, keyOf(r)))
  {
    if pages == [] {
    } else {
      ReadsFront(stores, keyOf, limit, pages);
      assert Last(stores) in stores;
      assert forall s :: s in Front(stores) ==> s in stores;
      ServedOrAhead(Front(stores), keyOf, limit, Front(pages), r);
      PageIs(Last(stores), keyOf, CursorAt(pages, |pages| - 1), limit);
    }
  }

  /**
   A traversal that reaches its last page serves every record that was in the store at
   every read, exactly once, whatever was inserted or deleted meanwhile.
   */
  lemma PresentIsServedOnce<T(!new)>(stores: seq<seq<T>>, keyOf: T -> Key, limit: nat, pages: seq<Page<T>>, r: T)
    requires limit >= 1 && Reads(stores, keyOf, limit, pages) && pages != [] && Last(pages).next.None?
    requires forall s :: s in stores ==> UniqueKeys(s, keyOf) && r in s
    ensures exists i :: 0 <= i < |Served(pages)| && Served(pages)[i] == r
              && forall j :: 0 <= j < |Served(pages)| && keyOf(Served(pages)[j]) == keyOf(r) ==> j == i
  {
    ServedOrAhead(stores, keyOf, limit, pages, r);
    NoKeyTwice(stores, keyOf, limit, pages);
    var i :| 0 <= i < |Served(pages)| && Served(pages)[i] == r;
    var served := Served(pages);
    forall j | 0 <= j < |served| && j != i ensures keyOf(served[j]) != keyOf(r) {
      var lower, upper := if j < i then j else i, if j < i then i else j;
      assert Lt(keyOf(served[lower]), keyOf(served[upper]));
    }
  }

  // ---------------------------------------------------------------- a store that does not change

  function AfterKey<T>(s: seq<T>, keyOf: T -> Key, key: Key): seq<T> { Filter(s, PastCursor(keyOf, Some(key))) }

  /** In a sorted list, what lies past the key at `i` is a suffix, beyond `i`. */
  lemma {:induction false} AfterIsSuffix<T(!new)>(s: seq<T>, keyOf: T -> Key, i: nat) returns (m: nat)
    requires NotDescending(s, keyOf) && i < |s|
    ensures i < m <= |s| && AfterKey(s, keyOf, keyOf(s[i])) == s[m..]
    ensures m == i + 1 <==> i + 1 == |s| || keyOf(s[i]) != keyOf(s[i + 1])
    ensures forall k :: i <= k < m ==> keyOf(s[k]) == keyOf(s[i])
  {
    m := i + 1;
    while m < |s| && keyOf(s[m]) == keyOf(s[i])
      invariant i < m <= |s| && forall k :: i <= k < m ==> keyOf(s[k]) == keyOf(s[i])
    {
      m := m + 1;
    }
    var keep := PastCursor(keyOf, Some(keyOf(s[i])));
    assert s == s[..m] + s[m..];
    forall k | 0 <= k < m ensures !keep(s[k]) {
      assert k < i ==> !Lt(keyOf(s[i]), keyOf(s[k]));
    }
    forall k | m <= k < |s| ensures keep(s[k]) {
      assert !Lt(keyOf(s[k]), keyOf(s[m])) && !Lt(keyOf(s[m]), keyOf(s[i]));
    }
    FilterSplits(s[..m], s[m..], keep);
  }

  lemma {:induction false} FilterSplits<T>(none: seq<T>, all: seq<T>, keep: T -> bool)
    requires (forall k :: 0 <= k < |none| ==> !keep(none[k])) && forall k :: 0 <= k < |all| ==> keep(all[k])
    ensures Filter(none + all, keep) == all
  {
    if none != [] {
      assert (none + all)[1..] == none[1..] + all;
      FilterSplits(none[1..], all, keep);
    } else {
      assert none + all == all;
      if all != [] {
        assert [] + all[1..] == all[1..];
        FilterSplits([], all[1..], keep);
      }
    }
  }

  /** All pages of a fixed store, cursor by cursor. */
  ghost function Traverse<T(!new)>(records: seq<T>, keyOf: T -> Key, cursor: Option<Key>, limit: nat): seq<Page<T>>
    requires limit >= 1
    decreases |Eligible(records, keyOf, cursor)|
  {
    var page := Paginate(records, keyOf, cursor, limit);
    if page.next.None? then [page]
    else
      NextIsShorter(records, keyOf, cursor, limit);
      [page] + Traverse(records, keyOf, page.next, limit)
  }

  /** The same pages, from the sorted list alone. */
  ghost function Chunks<T(!new)>(s: seq<T>, keyOf: T -> Key, limit: nat): seq<seq<T>>
    requires limit >= 1
    decreases |s|
  {
    if |s| <= limit then [s]
    else
      FilterIs(s, PastCursor(keyOf, Some(keyOf(s[limit - 1]))));
      var rest := AfterKey(s, keyOf, keyOf(s[limit - 1]));
      [s[..limit]] + if |rest| < |s| then Chunks(rest, keyOf, limit) else []
  }

  lemma {:induction false} FilterTwice<T>(s: seq<T>, keyOf: T -> Key, cursor: Option<Key>, later: Key)
    requires Past(later, cursor)
    ensures Filter(Filter(s, PastCursor(keyOf, cursor)), PastCursor(keyOf, Some(later))) == Filter(s, PastCursor(keyOf, Some(later)))
  {
    if s == [] {
    } else {
      FilterTwice(s[1..], keyOf, cursor, later);
      var rest := Filter(s[1..], PastCursor(keyOf, cursor));
      if PastCursor(keyOf, cursor)(s[0]) {
        assert ([s[0]] + rest)[1..] == rest;
      } else {
        assert [] + rest == rest;
      }
    }
  }

  lemma NextEligible<T(!new)>(records: seq<T>, keyOf: T -> Key, cursor: Option<Key>, limit: nat)
    requires limit >= 1 && Paginate(records, keyOf, cursor, limit).next.Some?
    ensures var e := Eligible(records, keyOf, cursor);
            && limit < |e| && Paginate(records, keyOf, cursor, limit) == Page(e[..limit], Some(keyOf(e[limit - 1])))
            && Eligible(records, keyOf, Some(keyOf(e[limit - 1]))) == AfterKey(e, keyOf, keyOf(e[limit - 1]))
  {
    EligibleIs(records, keyOf, cursor);
    var e := Eligible(records, keyOf, cursor);
    assert e[limit - 1] in e;
    FilterTwice(Sort(records, ByKey(keyOf)), keyOf, cursor, keyOf(e[limit - 1]));
  }

  lemma NextIsShorter<T(!new)>(records: seq<T>, keyOf: T -> Key, cursor: Option<Key>, limit: nat)
    requires limit >= 1 && Paginate(records, keyOf, cursor, limit).next.Some?
    ensures |Eligible(records, keyOf, Paginate(records, keyOf, cursor, limit).next)| < |Eligible(records, keyOf, cursor)|
  {
    NextEligible(records, keyOf, cursor, limit);
    EligibleIs(records, keyOf, cursor);
    var m := AfterIsSuffix(Eligible(records, keyOf, cursor), keyOf, limit - 1);
  }

  function Items<T>(pages: seq<Page<T>>): seq<seq<T>> { seq(|pages|, k requires 0 <= k < |pages| => pages[k].items) }

  lemma {:induction false} TraverseIsChunks<T(!new)>(records: seq<T>, keyOf: T -> Key, cursor: Option<Key>, limit: nat)
    requires limit >= 1
    ensures Items(Traverse(records, keyOf, cursor, limit)) == Chunks(Eligible(records, keyOf, cursor), keyOf, limit)
    decreases |Eligible(records, keyOf, cursor)|
  {
    var page, e := Paginate(records, keyOf, cursor, limit), Eligible(records, keyOf, cursor);
    if page.next.Some? {
      NextEligible(records, keyOf, cursor, limit);
      NextIsShorter(records, keyOf, cursor, limit);
      TraverseIsChunks(records, keyOf, page.next, limit);
    } else {
      assert |e| <= limit;
    }
  }

  function Flatten<T>(chunks: seq<seq<T>>): seq<T> { if chunks == [] then [] else chunks[0] + Flatten(chunks[1..]) }

  /** No page boundary falls between two records with the same key. */
  ghost predicate CleanBoundaries<T>(s: seq<T>, keyOf: T -> Key, limit: nat)
    requires limit >= 1
    decreases |s|
  {
    |s| <= limit || (keyOf(s[limit - 1]) != keyOf(s[limit]) && CleanBoundaries(s[limit..], keyOf, limit))
  }

  function PageCount(n: nat, limit: nat): nat
    requires limit >= 1
  {
    if n <= limit then 1 else 1 + PageCount(n - limit, limit)
  }

  /** `PageCount` is the ceiling of the quotient, and at least one. */
  lemma {:induction false} PageCountIsCeiling(n: nat, limit: nat)
    requires limit >= 1
    ensures (PageCount(n, limit) - 1) * limit < n || PageCount(n, limit) == 1
    ensures n <= PageCount(n, limit) * limit
  {
    if n > limit {
      PageCountIsCeiling(n - limit, limit);
    }
  }

  lemma {:induction false} ChunksLose<T(!new)>(s: seq<T>, keyOf: T -> Key, limit: nat)
    requires limit >= 1 && NotDescending(s, keyOf)
    ensures |Flatten(Chunks(s, keyOf, limit))| <= |s|
    ensures Flatten(Chunks(s, keyOf, limit)) == s <==> CleanBoundaries(s, keyOf, limit)
    ensures CleanBoundaries(s, keyOf, limit) ==> |Chunks(s, keyOf, limit)| == PageCount(|s|, limit)
    decreases |s|
  {
    if |s| <= limit {
      assert Flatten([s][1..]) == [];
    } else {
      var m := AfterIsSuffix(s, keyOf, limit - 1);
      ChunksUnfold(s, keyOf, limit, m);
      DropKeepsOrder(s, keyOf, m);
      hide Chunks, Flatten, AfterKey, NotDescending;
      ChunksLose(s[m..], keyOf, limit);
      Rejoins(s, limit, m, Flatten(Chunks(s[m..], keyOf, limit)));
    }
  }

  lemma DropKeepsOrder<T>(s: seq<T>, keyOf: T -> Key, m: nat)
    requires NotDescending(s, keyOf) && m <= |s|
    ensures NotDescending(s[m..], keyOf)
  {
  }

  lemma Rejoins<T>(s: seq<T>, limit: nat, m: nat, rest: seq<T>)
    requires limit <= m <= |s| && |rest| <= |s[m..]|
    ensures |s[..limit] + rest| <= |s|
    ensures s[..limit] + rest == s <==> m == limit && rest == s[m..]
  {
    if s[..limit] + rest == s {
      assert |rest| == |s| - limit;
      assert rest == (s[..limit] + rest)[limit..];
    } else if m == limit {
      assert s == s[..limit] + s[m..];
    }
  }

  /** The first page, and then the pages of what lies past its last key. */
  lemma ChunksUnfold<T(!new)>(s: seq<T>, keyOf: T -> Key, limit: nat, m: nat)
    requires 1 <= limit < |s| && m <= |s| && m > 0 && AfterKey(s, keyOf, keyOf(s[limit - 1])) == s[m..]
    ensures Flatten(Chunks(s, keyOf, limit)) == s[..limit] + Flatten(Chunks(s[m..], keyOf, limit))
    ensures |Chunks(s, keyOf, limit)| == 1 + |Chunks(s[m..], keyOf, limit)|
  {
    assert Chunks(s, keyOf, limit)[1..] == Chunks(s[m..], keyOf, limit);
  }

  /**
   On a store that does not change, the pages are the sorted list cut up -- exactly when
   no boundary separates equal keys; records tied across one are lost.
   */
  lemma FixedStore<T(!new)>(records: seq<T>, keyOf: T -> Key, limit: nat)
    requires limit >= 1
    ensures var sorted := Eligible(records, keyOf, None);
            var pages := Traverse(records, keyOf, None, limit);
            && (Flatten(Items(pages)) == sorted <==> CleanBoundaries(sorted, keyOf, limit))
            && (UniqueKeys(records, keyOf) ==>
                  CleanBoundaries(sorted, keyOf, limit) && |pages| == PageCount(|records|, limit))
            && |sorted| == |records|
  {
    hide Paginate, Chunks, Flatten, CleanBoundaries, UniqueKeys;
    var sorted := Eligible(records, keyOf, None);
    EligibleIs(records, keyOf, None);
    TraverseIsChunks(records, keyOf, None, limit);
    ChunksLose(sorted, keyOf, limit);
    NothingFiltered(records, keyOf);
    if UniqueKeys(records, keyOf) {
      AscendingIsClean(sorted, keyOf, limit);
      assert |Traverse(records, keyOf, None, limit)| == |Items(Traverse(records, keyOf, None, limit))|;
    }
  }

  /** Two records with one key, a page at a time: the second is never served. */
  lemma TieIsLost(key: Key)
    ensures var keyOf: nat -> Key := r => key;
            var pages := Traverse([0, 1], keyOf, None, 1);
            Flatten(Items(pages)) != Eligible([0, 1], keyOf, None) && |Eligible([0, 1], keyOf, None)| == 2
  {
    var keyOf: nat -> Key := r => key;
    FixedStore([0, 1], keyOf, 1);
    hide Traverse, Flatten, Eligible;
    assert !CleanBoundaries(Eligible([0, 1], keyOf, None), keyOf, 1);
  }

  lemma NothingFiltered<T>(records: seq<T>, keyOf: T -> Key)
    ensures Eligible(records, keyOf, None) == Sort(records, ByKey(keyOf))
    ensures |Eligible(records, keyOf, None)| == |records|
  {
    var all := Sort(records, ByKey(keyOf));
    SortIsPermutation(records, ByKey(keyOf));
    assert [] + all == all;
    FilterSplits([], all, PastCursor(keyOf, None));
  }

  lemma {:induction false} AscendingIsClean<T>(s: seq<T>, keyOf: T -> Key, limit: nat)
    requires limit >= 1 && Ascending(s, keyOf)
    ensures CleanBoundaries(s, keyOf, limit)
    decreases |s|
  {
    if |s| > limit {
      assert Lt(keyOf(s[limit - 1]), keyOf(s[limit]));
      AscendingIsClean(s[limit..], keyOf, limit);
    }
  }
}
