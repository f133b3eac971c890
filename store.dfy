/** The two tables the repositories work on, and the LINQ queries they run on them:
    lookup by id, filtering (which keeps store order, as no query orders its rows),
    `Skip`/`Take` paging, the largest id and the sum of values. */
module TedStore {
  import opened Wrappers
  import opened Calendar
  import opened Entities

  /** The database context: the `Ted` rows in store order, the `LimiteTed` rows, and
      the last value the `Ted.Id` identity column (seed 1, step 1) handed out. */
  class AppDb {
    var teds: seq<Ted>
    var limites: seq<LimiteTed>
    var lastIdentity: int

    /** Identity values are positive, handed out in increasing order and never
        reused, so ids grow along the table and none is above the last one issued. */
    ghost predicate Valid()
      reads this
    {
      0 <= lastIdentity && IdsIncreasing(teds) && IdsUpTo(teds, lastIdentity) && DatesValid(teds)
    }

    /** An empty `Ted` table beside the given limit rows. */
    constructor(limites: seq<LimiteTed>)
      ensures Valid()
      ensures teds == [] && this.limites == limites && lastIdentity == 0
    {
      teds := [];
      this.limites := limites;
      lastIdentity := 0;
    }
  }

  ghost predicate IdsIncreasing(teds: seq<Ted>)
  {
    forall i, j :: 0 <= i < j < |teds| ==> teds[i].id < teds[j].id
  }

  /** Every stored `DateTime` is one .NET can represent. */
  ghost predicate DatesValid(teds: seq<Ted>)
  {
    forall t :: t in teds ==> ValidDateTime(t.criadoEm) && ValidDateTime(t.dataAgendamento)
  }

  ghost predicate IdsUpTo(teds: seq<Ted>, last: int)
  {
    forall i :: 0 <= i < |teds| ==> 0 < teds[i].id <= last
  }

  /** `Where(f => f.Id == id).FirstOrDefault()`: the first row with that id. */
  function FindById(teds: seq<Ted>, id: int): (r: Option<Ted>)
    ensures r.Some? ==> r.value in teds && r.value.id == id
    ensures r.None? <==> forall t :: t in teds ==> t.id != id
  {
    if teds == [] then None
    else if teds[0].id == id then Some(teds[0])
    else FindById(teds[1..], id)
  }

  /** With ids unique, the row found is the one at the position holding that id. */
  lemma {:induction false} FindByIdAt(teds: seq<Ted>, k: nat)
    requires IdsIncreasing(teds) && k < |teds|
    ensures FindById(teds, teds[k].id) == Some(teds[k])
  {
    if k > 0 {
      assert teds[0].id < teds[k].id;
      assert teds[1..][k - 1] == teds[k];
      FindByIdAt(teds[1..], k - 1);
    }
  }

  /** `Update(row)` on a keyed table: the row with the same id is overwritten. */
  function ReplaceById(teds: seq<Ted>, row: Ted): (r: seq<Ted>)
    ensures |r| == |teds|
    ensures forall i :: 0 <= i < |r| ==> r[i] == (if teds[i].id == row.id then row else teds[i])
  {
    seq(|teds|, i requires 0 <= i < |teds| => if teds[i].id == row.id then row else teds[i])
  }

  /** Overwriting a row by its own id keeps the table's invariants and makes the
      new row the one found under that id. */
  lemma ReplaceKeepsIds(teds: seq<Ted>, last: int, k: nat, row: Ted)
    requires IdsIncreasing(teds) && IdsUpTo(teds, last) && k < |teds| && row.id == teds[k].id
    ensures IdsIncreasing(ReplaceById(teds, row)) && IdsUpTo(ReplaceById(teds, row), last)
    ensures ReplaceById(teds, row)[k] == row
    ensures forall i :: 0 <= i < |teds| && i != k ==> ReplaceById(teds, row)[i] == teds[i]
    ensures FindById(ReplaceById(teds, row), row.id) == Some(row)
  {
    var r := ReplaceById(teds, row);
    forall i | 0 <= i < |teds| && i != k
      ensures r[i] == teds[i]
    {
      if i < k { assert teds[i].id < teds[k].id; } else { assert teds[k].id < teds[i].id; }
    }
    assert forall i :: 0 <= i < |teds| ==> r[i].id == teds[i].id;
    FindByIdAt(r, k);
  }

  /** Position of the row with a given id, when there is one. */
  lemma FoundAtSomePosition(teds: seq<Ted>, id: int) returns (k: nat)
    requires FindById(teds, id).Some?
    ensures k < |teds| && teds[k] == FindById(teds, id).value
  {
    var t := FindById(teds, id).value;
    k :| 0 <= k < |teds| && teds[k] == t;
  }

  /** `OrderByDescending(t => t.Id).Select(t => (int?)t.Id).FirstOrDefault()`. */
  function MaxId(teds: seq<Ted>): (r: Option<int>)
    ensures r.None? <==> teds == []
    ensures r.Some? ==> (exists t :: t in teds && t.id == r.value) && forall t :: t in teds ==> t.id <= r.value
  {
    if teds == [] then None
    else
      var rest := MaxId(teds[..|teds| - 1]);
      var last := teds[|teds| - 1];
      assert teds == teds[..|teds| - 1] + [last];
      if rest.Some? && rest.value > last.id then rest else Some(last.id)
  }

  /** `ObtemLancamentoIdTedAsync`: the largest id plus one, or 1 for an empty table. */
  function NextLancamentoId(teds: seq<Ted>): (n: int)
    ensures forall t :: t in teds ==> t.id < n
    ensures teds == [] ==> n == 1
    ensures teds != [] ==> exists t :: t in teds && t.id == n - 1
  {
    match MaxId(teds)
    case None => 1
    case Some(m) => m + 1
  }

  /** In a valid table the largest id is the last row's, and the settlement id
      never exceeds the id the next insert receives; the two agree exactly when
      the identity column has no gap after the last row. */
  lemma NextLancamentoIdAndIdentity(teds: seq<Ted>, last: int)
    requires IdsIncreasing(teds) && IdsUpTo(teds, last) && 0 <= last
    ensures teds != [] ==> NextLancamentoId(teds) == teds[|teds| - 1].id + 1
    ensures NextLancamentoId(teds) <= last + 1
    ensures NextLancamentoId(teds) == last + 1 <==> (teds == [] && last == 0) || (teds != [] && teds[|teds| - 1].id == last)
  {
    if teds != [] {
      var n := NextLancamentoId(teds);
      var t :| t in teds && t.id == n - 1;
      var k :| 0 <= k < |teds| && teds[k] == t;
      if k < |teds| - 1 {
        assert teds[k].id < teds[|teds| - 1].id;
      }
    }
  }

  /** `Where(keep)`: the rows that pass, in store order. */
  function Filter(teds: seq<Ted>, keep: Ted -> bool): (r: seq<Ted>)
    ensures forall t :: t in r <==> t in teds && keep(t)
    ensures |r| <= |teds|
    ensures r == [] <==> forall t :: t in teds ==> !keep(t)
  {
    if teds == [] then []
    else
      var init := Filter(teds[..|teds| - 1], keep);
      var last := teds[|teds| - 1];
      assert teds == teds[..|teds| - 1] + [last];
      if keep(last) then init + [last] else init
  }

  /** Filtering keeps store order: filtering a concatenation filters each part. */
  lemma {:induction false} FilterAppend(a: seq<Ted>, b: seq<Ted>, keep: Ted -> bool)
    ensures Filter(a + b, keep) == Filter(a, keep) + Filter(b, keep)
  {
    if b != [] {
      var b' := b[..|b| - 1];
      assert (a + b)[..|a + b| - 1] == a + b';
      FilterAppend(a, b', keep);
    } else {
      assert a + b == a;
    }
  }

  /** `Sum(t => t.ValorSolicitado)`. */
  function SumValues(teds: seq<Ted>): (r: real)
    ensures (forall t :: t in teds ==> t.valorSolicitado >= 0.0) ==> r >= 0.0
    ensures teds == [] ==> r == 0.0
  {
    if teds == [] then 0.0 else SumValues(teds[..|teds| - 1]) + teds[|teds| - 1].valorSolicitado
  }

  lemma SumAppend(teds: seq<Ted>, t: Ted)
    ensures SumValues(teds + [t]) == SumValues(teds) + t.valorSolicitado
  {
    assert (teds + [t])[..|teds|] == teds;
  }

  /** `Skip(n)`: everything after the first `n` rows (none skipped when `n` is not
      positive). */
  function Skip<T>(s: seq<T>, n: int): (r: seq<T>)
    ensures |r| == (if n <= 0 then |s| else if n >= |s| then 0 else |s| - n)
    ensures forall i :: 0 <= i < |r| ==> r[i] == s[i + (if n <= 0 then 0 else n)]
  {
    if n <= 0 then s else if n >= |s| then [] else s[n..]
  }

  /** `Take(n)`: the first `n` rows (none when `n` is not positive). */
  function Take<T>(s: seq<T>, n: int): (r: seq<T>)
    ensures |r| == (if n <= 0 then 0 else if n >= |s| then |s| else n)
    ensures r <= s
  {
    if n <= 0 then [] else if n >= |s| then s else s[..n]
  }

  /** `Skip((page - 1) * size).Take(size)`. */
  function Page<T>(s: seq<T>, page: int, size: int): (r: seq<T>)
    ensures forall x :: x in r ==> x in s
  {
    var rest := Skip(s, (page - 1) * size);
    assert forall i :: 0 <= i < |rest| ==> rest[i] in s;
    Take(Skip(s, (page - 1) * size), size)
  }

  /** A page never holds more than the page size. */
  lemma PageBound<T>(s: seq<T>, page: int, size: int)
    ensures |Page(s, page, size)| <= (if size <= 0 then 0 else size)
  {
  }

  /** With a positive size, row `i` of the full list is row `i % size` of page
      `i / size + 1`: paging loses and repeats nothing. */
  lemma PagePosition<T>(s: seq<T>, size: int, i: int)
    requires size > 0 && 0 <= i < |s|
    ensures i % size < |Page(s, i / size + 1, size)|
    ensures Page(s, i / size + 1, size)[i % size] == s[i]
  {
    var p, r := i / size, i % size;
    var start := p * size;
    assert start + r == i && 0 <= r < size;
    assert 0 <= start by { assert p >= 0; }
    assert (p + 1 - 1) * size == start;
    var rest := Skip(s, start);
    assert |rest| == |s| - start;
    assert rest[r] == s[i];
    assert Page(s, p + 1, size) == Take(rest, size);
  }

  /** A page that starts past the last row is empty. */
  lemma PagePastEnd<T>(s: seq<T>, page: int, size: int)
    requires size > 0 && (page - 1) * size >= |s|
    ensures Page(s, page, size) == []
  {
  }
}
