/** The record store behind a Spring Data JPA repository and the Hibernate Search index kept
    beside it, both keyed by id, plus the paging types of Spring Data.
    Automatic indexing is taken to have completed once a write commits: every committed write
    applies the same change, key by key, to the index. */
module Persistence {
  import opened JavaLang

  /** The table and the search index of one entity type. */
  datatype Stores<R(==)> = Stores(records: map<Uuid, R>, index: map<Uuid, R>)
  {
    /** The index holds exactly what the table holds. */
    predicate Mirrored() {
      records == index
    }

    /** A committed save of r under id, followed by its automatic indexing: both hold r
        under id, and a mirrored pair stays mirrored. */
    function Put(id: Uuid, r: R): (s: Stores<R>)
      ensures id in s.records && s.records[id] == r && id in s.index && s.index[id] == r
      ensures Mirrored() ==> s.Mirrored()
    {
      Stores(records[id := r], index[id := r])
    }

    /** A committed delete of id, followed by the removal of its document: neither holds id
        any more, and a mirrored pair stays mirrored. */
    function Remove(id: Uuid): (s: Stores<R>)
      ensures id !in s.records && id !in s.index
      ensures Mirrored() ==> s.Mirrored()
    {
      Stores(records - {id}, index - {id})
    }
  }

  /** The id a save writes to. SimpleJpaRepository.save persists an entity whose id is null,
      so the id generator supplies one; it merges any other entity, and Hibernate's merge of a
      detached entity with a generated id that has no row inserts it under a generated id. */
  function SaveKey<R>(id: Option<Uuid>, records: map<Uuid, R>, generated: Uuid): (key: Uuid)
    ensures id.Some? && id.value in records ==> key == id.value
    ensures (id.None? || id.value !in records) ==> key == generated
  {
    if id.Some? && id.value in records then id.value else generated
  }

  /** The flush of a save of r under key. Hibernate Validator checks the entity first: a
      violated constraint throws and the transaction rolls back, so nothing is written. */
  function Commit<R>(s: Stores<R>, key: Uuid, r: R, valid: bool): (res: Outcome<Stores<R>>)
    ensures res.Returns? <==> valid
    ensures res.Returns? ==> res.value == s.Put(key, r)
    ensures res.Throws? ==> res.exception == ConstraintViolationException
  {
    if valid then Returns(s.Put(key, r)) else Throws(ConstraintViolationException)
  }

  /** The stores once a commit has succeeded or been rolled back. */
  function After<R>(s: Stores<R>, res: Outcome<Stores<R>>): Stores<R> {
    if res.Returns? then res.value else s
  }

  /** A rolled-back save leaves both sizes as they were; a committed one keeps the stores
      mirrored. */
  lemma CommitSizes<R>(s: Stores<R>, key: Uuid, r: R, valid: bool)
    requires s.Mirrored()
    ensures After(s, Commit(s, key, r, valid)).Mirrored()
    ensures !valid ==> |After(s, Commit(s, key, r, valid)).records| == |s.records|
    ensures !valid ==> |After(s, Commit(s, key, r, valid)).index| == |s.index|
    ensures valid && key in s.records ==> |After(s, Commit(s, key, r, valid)).records| == |s.records|
  {
    if valid {
      PutSizes(s, key, r);
    }
  }

  /** A save grows the table and the index by one exactly when the key is new, and leaves
      every other key as it was. */
  lemma PutSizes<R>(s: Stores<R>, id: Uuid, r: R)
    requires s.Mirrored()
    ensures s.Put(id, r).Mirrored()
    ensures |s.Put(id, r).records| == |s.records| + (if id in s.records then 0 else 1)
    ensures |s.Put(id, r).index| == |s.index| + (if id in s.index then 0 else 1)
    ensures s.Put(id, r).records[id] == r && s.Put(id, r).index[id] == r
    ensures forall k :: k != id ==> (k in s.Put(id, r).records <==> k in s.records)
  {
    if id !in s.records {
      assert s.Put(id, r).records.Keys == s.records.Keys + {id};
    } else {
      assert s.Put(id, r).records.Keys == s.records.Keys;
    }
  }

  /** Deleting a stored id shrinks the table and the index by exactly one, and removes
      nothing else. */
  lemma RemoveSizes<R>(s: Stores<R>, id: Uuid)
    requires s.Mirrored() && id in s.records
    ensures s.Remove(id).Mirrored()
    ensures |s.Remove(id).records| == |s.records| - 1
    ensures |s.Remove(id).index| == |s.index| - 1
    ensures id !in s.Remove(id).records && id !in s.Remove(id).index
    ensures forall k :: k != id && k in s.records ==> k in s.Remove(id).records && s.Remove(id).records[k] == s.records[k]
  {
    assert s.records.Keys == s.Remove(id).records.Keys + {id};
  }

  /** A new record gets the generated id, so a save of a record without id always grows
      the table by one. */
  lemma SaveOfNewRecordGrows<R>(s: Stores<R>, id: Option<Uuid>, generated: Uuid, r: R)
    requires s.Mirrored() && generated !in s.records
    requires id.None? || id.value !in s.records
    ensures |s.Put(SaveKey(id, s.records, generated), r).records| == |s.records| + 1
    ensures |s.Put(SaveKey(id, s.records, generated), r).index| == |s.index| + 1
  {
    PutSizes(s, generated, r);
  }

  /** org.springframework.data.domain.Pageable: unpaged, or a page number and size. */
  datatype Pageable = Unpaged | PageRequest(pageNumber: nat, pageSize: nat)
  {
    function Offset(): nat {
      if Unpaged? then 0 else pageNumber * pageSize
    }
  }

  /** org.springframework.data.domain.Page: the content, the request and the total. */
  datatype Page<T> = Page(content: seq<T>, pageable: Pageable, total: nat)

  /** new PageImpl(content, pageable, total): for a paged request with non-empty content whose
      page reaches past total, the constructor reports offset + |content| instead. */
  function PageImpl<T>(content: seq<T>, pageable: Pageable, total: nat): (p: Page<T>)
    ensures p.content == content && p.pageable == pageable
    ensures pageable.Unpaged? || content == [] ==> p.total == total
    ensures pageable.PageRequest? && content != [] && pageable.Offset() + pageable.pageSize > total
      ==> p.total == pageable.Offset() + |content|
    ensures pageable.PageRequest? && pageable.Offset() + pageable.pageSize <= total ==> p.total == total
  {
    var t :=
      if pageable.PageRequest? && content != [] && pageable.Offset() + pageable.pageSize > total
      then pageable.Offset() + |content|
      else total;
    Page(content, pageable, t)
  }

  /** The part of an ordered result that a page request selects: all of it when unpaged,
      otherwise pageSize elements from the offset on, fewer at the end, none past it. */
  function Slice<T>(s: seq<T>, pageable: Pageable): (r: seq<T>)
    ensures pageable.Unpaged? ==> r == s
    ensures pageable.PageRequest? ==> |r| <= pageable.pageSize
    ensures pageable.PageRequest? && pageable.Offset() >= |s| ==> r == []
    ensures pageable.PageRequest? && pageable.Offset() < |s| ==>
      r == s[pageable.Offset()..if pageable.Offset() + pageable.pageSize <= |s| then pageable.Offset() + pageable.pageSize else |s|]
  {
    if pageable.Unpaged? then s
    else if pageable.Offset() >= |s| then []
    else if pageable.Offset() + pageable.pageSize <= |s| then s[pageable.Offset()..pageable.Offset() + pageable.pageSize]
    else s[pageable.Offset()..]
  }

  /** findAll(specification, pageable) of a repository: the requested slice of the whole
      ordered result, and the size of that result as the total. */
  function PageOf<T>(all: seq<T>, pageable: Pageable): (p: Page<T>)
    ensures p.content == Slice(all, pageable) && p.pageable == pageable && p.total == |all|
  {
    Page(Slice(all, pageable), pageable, |all|)
  }

  /** Consecutive pages of one size follow each other without gap or overlap. */
  lemma {:induction false} PagesAreConsecutive<T>(s: seq<T>, size: nat, n: nat)
    requires size > 0
    ensures Slice(s, PageRequest(0, size * n)) + Slice(s, PageRequest(n, size)) == Slice(s, PageRequest(0, size * (n + 1)))
  {
    var offset := n * size;
    assert PageRequest(n, size).Offset() == offset;
    assert size * (n + 1) == offset + size;
    if offset >= |s| {
    } else if offset + size <= |s| {
      assert s[..offset] + s[offset..offset + size] == s[..offset + size];
    } else {
      assert s[..offset] + s[offset..] == s;
    }
  }

  /** page.map(f) and list.stream().map(f): the same elements through f, in order. */
  function MapSeq<T, U>(s: seq<T>, f: T -> U): (r: seq<U>)
    ensures |r| == |s| && forall i :: 0 <= i < |s| ==> r[i] == f(s[i])
  {
    seq(|s|, i requires 0 <= i < |s| => f(s[i]))
  }

  function MapPage<T, U>(p: Page<T>, f: T -> U): (q: Page<U>)
    ensures q.content == MapSeq(p.content, f) && q.pageable == p.pageable && q.total == p.total
  {
    Page(MapSeq(p.content, f), p.pageable, p.total)
  }

  /** Mapping before or after slicing gives the same page. */
  lemma MapCommutesWithSlice<T, U>(s: seq<T>, pageable: Pageable, f: T -> U)
    ensures MapSeq(Slice(s, pageable), f) == Slice(MapSeq(s, f), pageable)
  {
  }

  /** The first n elements of s, or all of them when there are fewer: fetchHits(n). */
  function Take<T>(s: seq<T>, n: nat): (r: seq<T>)
    ensures |r| == if |s| < n then |s| else n
    ensures r == s[..|r|]
  {
    if |s| <= n then s else s[..n]
  }

  /** The limit search passes to fetchHits. */
  const FetchLimit := 20

  /** The records stored under ids, in the order of ids. */
  function Rows<R>(ids: seq<Uuid>, m: map<Uuid, R>): (r: seq<R>)
    requires forall i :: 0 <= i < |ids| ==> ids[i] in m
    ensures |r| == |ids| && forall i :: 0 <= i < |ids| ==> r[i] == m[ids[i]]
  {
    seq(|ids|, i requires 0 <= i < |ids| => m[ids[i]])
  }

  /** ids lists every key of m exactly once. */
  predicate Enumerates<R>(ids: seq<Uuid>, m: map<Uuid, R>) {
    && (forall i :: 0 <= i < |ids| ==> ids[i] in m)
    && (forall k :: k in m ==> k in ids)
    && (forall i, j :: 0 <= i < j < |ids| ==> ids[i] != ids[j])
  }

  /** The distinct entries of ids. */
  function Elements(ids: seq<Uuid>): (r: set<Uuid>)
    ensures forall x :: x in r <==> x in ids
  {
    if ids == [] then {} else {ids[0]} + Elements(ids[1..])
  }

  /** A sequence without repeats has as many distinct entries as entries. */
  lemma {:induction false} DistinctElements(ids: seq<Uuid>)
    requires forall i, j :: 0 <= i < j < |ids| ==> ids[i] != ids[j]
    ensures |Elements(ids)| == |ids|
  {
    if ids != [] {
      var tail := ids[1..];
      assert forall i :: 0 <= i < |tail| ==> tail[i] == ids[i + 1];
      DistinctElements(tail);
      assert ids[0] !in Elements(tail);
    }
  }

  /** An enumeration has as many entries as the map has keys. */
  lemma EnumerationSize<R>(ids: seq<Uuid>, m: map<Uuid, R>)
    requires Enumerates(ids, m)
    ensures |ids| == |m|
  {
    assert m.Keys == Elements(ids);
    DistinctElements(ids);
  }

  /** When at most n ids enumerate m, the first n of them are all of them, and their rows
      hold every record of m. */
  lemma SmallEnumerationIsTakenWhole<R>(ids: seq<Uuid>, m: map<Uuid, R>, n: nat)
    requires Enumerates(ids, m) && |m| <= n
    ensures Take(ids, n) == ids
    ensures forall k :: k in m ==> m[k] in Rows(Take(ids, n), m)
  {
    EnumerationSize(ids, m);
    var rows := Rows(ids, m);
    forall k | k in m ensures m[k] in rows {
      var i :| 0 <= i < |ids| && ids[i] == k;
      assert rows[i] == m[k];
    }
  }

  /** A page after the first starts at least one page size in. */
  lemma LaterPageOffset(pageable: Pageable)
    requires pageable.PageRequest? && pageable.pageNumber > 0
    ensures pageable.Offset() >= pageable.pageSize
  {
    var rest := (pageable.pageNumber - 1) * pageable.pageSize;
    assert pageable.Offset() == rest + pageable.pageSize;
  }
}
