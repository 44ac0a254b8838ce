/** Header de-duplication (`_unique_headers` in backend/app/datasets/processor.py). */
module Headers {
  import opened Text

  /** The two facts about characters that the code takes from Unicode: which are white space, and
      what each folds to when case is ignored. */
  datatype Unicode = Unicode(space: char -> bool, fold: char -> string)

  predicate Plain(c: char) {
    c == '_' || IsDigit(c)
  }

  /** Digits and the underscore fold to themselves, and neither they nor letters of "column" are spaces. */
  ghost predicate Sane(u: Unicode) {
    && (forall c: char :: Plain(c) ==> u.fold(c) == [c] && !u.space(c))
    && (forall c :: c in "column_" ==> !u.space(c))
  }

  function Casefold(u: Unicode, s: string): string {
    if s == "" then "" else u.fold(s[0]) + Casefold(u, s[1..])
  }

  function StripLeft(u: Unicode, s: string): string {
    if s != "" && u.space(s[0]) then StripLeft(u, s[1..]) else s
  }

  function StripRight(u: Unicode, s: string): string {
    if s != "" && u.space(s[|s| - 1]) then StripRight(u, s[..|s| - 1]) else s
  }

  function Strip(u: Unicode, s: string): string {
    StripRight(u, StripLeft(u, s))
  }

  /** The name a column would like: its stripped text, or its number when there is none. */
  function Base(u: Unicode, value: Option<string>, index: nat): (r: string)
    ensures r != ""
  {
    var stripped := if value.Some? then Strip(u, value.value) else "";
    if stripped != "" then stripped else "column_" + Decimal(index + 1)
  }

  function Numbered(base: string, k: nat): string {
    base + "_" + Decimal(k)
  }

  function Folded(u: Unicode, headers: seq<string>): set<string> {
    set i | 0 <= i < |headers| :: Casefold(u, headers[i])
  }

  predicate Taken(u: Unicode, earlier: seq<string>, candidate: string) {
    Casefold(u, candidate) in Folded(u, earlier)
  }

  /** The base if it is free, else the base with the least free number from 2. */
  ghost predicate Chosen(u: Unicode, earlier: seq<string>, base: string, header: string) {
    && !Taken(u, earlier, header)
    && (header == base
        || (Taken(u, earlier, base)
            && exists k: nat :: k >= 2 && header == Numbered(base, k) && AllTaken(u, earlier, base, k)))
  }

  predicate AllTaken(u: Unicode, earlier: seq<string>, base: string, k: nat) {
    forall j :: 2 <= j < k ==> Taken(u, earlier, Numbered(base, j))
  }

  /** What the result must be: each header chosen against those before it. */
  ghost predicate Deduplicated(u: Unicode, values: seq<Option<string>>, headers: seq<string>) {
    && |headers| == |values|
    && forall i :: 0 <= i < |values| ==> Chosen(u, headers[..i], Base(u, values[i], i), headers[i])
  }

  lemma {:induction false} CasefoldConcat(u: Unicode, s: string, t: string)
    ensures Casefold(u, s + t) == Casefold(u, s) + Casefold(u, t)
  {
    if s == "" {
      assert s + t == t;
    } else {
      assert (s + t)[1..] == s[1..] + t;
      CasefoldConcat(u, s[1..], t);
    }
  }

  lemma {:induction false} PlainFoldsToItself(u: Unicode, s: string)
    requires Sane(u) && forall i :: 0 <= i < |s| ==> Plain(s[i])
    ensures Casefold(u, s) == s
  {
    if s != "" {
      PlainFoldsToItself(u, s[1..]);
    }
  }

  /** Different numbers give different names, even when case is ignored: the search meets a new
      candidate every time, so it cannot go through more of them than are taken. */
  lemma NumberedFoldsApart(u: Unicode, base: string, j: nat, k: nat)
    requires Sane(u) && Casefold(u, Numbered(base, j)) == Casefold(u, Numbered(base, k))
    ensures j == k
  {
    NumberedFolds(u, base, j);
    NumberedFolds(u, base, k);
    var stem := |Casefold(u, base)| + 1;
    assert Casefold(u, Numbered(base, j))[stem..] == Decimal(j);
    assert Casefold(u, Numbered(base, k))[stem..] == Decimal(k);
    DecimalInjective(j, k);
  }

  lemma NumberedFolds(u: Unicode, base: string, k: nat)
    requires Sane(u)
    ensures Casefold(u, Numbered(base, k)) == Casefold(u, base) + "_" + Decimal(k)
  {
    hide Casefold, Decimal, Sane;
    var tail := "_" + Decimal(k);
    assert Numbered(base, k) == base + tail;
    CasefoldConcat(u, base, tail);
    PlainFoldsToItself(u, tail);
  }

  lemma NumberedIsNotBase(u: Unicode, base: string, k: nat)
    requires Sane(u)
    ensures Casefold(u, Numbered(base, k)) != Casefold(u, base)
  {
    NumberedFolds(u, base, k);
  }

  /** The `i`-th name tried. */
  function Candidate(base: string, i: nat): string {
    if i == 0 then base else Numbered(base, i + 1)
  }

  lemma CandidatesFoldApart(u: Unicode, base: string, i: nat, j: nat)
    requires Sane(u) && i < j
    ensures Casefold(u, Candidate(base, i)) != Casefold(u, Candidate(base, j))
  {
    hide Sane, Casefold, Numbered;
    if i == 0 {
      NumberedIsNotBase(u, base, j + 1);
    } else if Casefold(u, Candidate(base, i)) == Casefold(u, Candidate(base, j)) {
      NumberedFoldsApart(u, base, i + 1, j + 1);
    }
  }

  /** The folded names of the first `n` candidates. */
  ghost function Tried(u: Unicode, base: string, n: nat): set<string> {
    if n == 0 then {} else Tried(u, base, n - 1) + {Casefold(u, Candidate(base, n - 1))}
  }

  lemma {:induction false} LaterIsUntried(u: Unicode, base: string, n: nat, j: nat)
    requires Sane(u) && n <= j
    ensures Casefold(u, Candidate(base, j)) !in Tried(u, base, n)
  {
    hide Sane, Casefold, Candidate;
    if n > 0 {
      LaterIsUntried(u, base, n - 1, j);
      CandidatesFoldApart(u, base, n - 1, j);
    }
  }

  /** No two candidates are the same name, so `n` of them fill `n` places. */
  lemma {:induction false} TriedSize(u: Unicode, base: string, n: nat)
    requires Sane(u)
    ensures |Tried(u, base, n)| == n
  {
    hide Sane, Casefold, Candidate;
    if n > 0 {
      TriedSize(u, base, n - 1);
      LaterIsUntried(u, base, n - 1, n - 1);
    }
  }

  method UniqueHeaders(u: Unicode, values: seq<Option<string>>) returns (headers: seq<string>)
    requires Sane(u)
    ensures Deduplicated(u, values, headers)
  {
    hide Sane, Base, Numbered, Chosen, AllTaken;
    headers := [];
    var used: set<string> := {};
    for index := 0 to |values|
      invariant |headers| == index
      invariant used == Folded(u, headers)
      invariant forall i :: 0 <= i < index ==> Chosen(u, headers[..i], Base(u, values[i], i), headers[i])
    {
      var base := Base(u, values[index], index);
      var candidate := FirstFree(u, headers, used, base);
      ghost var before := headers;
      used := used + {Casefold(u, candidate)};
      headers := headers + [candidate];
      FoldedOneMore(u, before, candidate);
      assert forall i :: 0 <= i <= index ==> headers[..i] == before[..i];
      assert before[..index] == before;
    }
  }

  lemma FoldedOneMore(u: Unicode, headers: seq<string>, header: string)
    ensures Folded(u, headers + [header]) == Folded(u, headers) + {Casefold(u, header)}
  {
    var more := headers + [header];
    assert more[|headers|] == header;
    assert forall i :: 0 <= i < |headers| ==> more[i] == headers[i];
    forall f | f in Folded(u, headers)
      ensures f in Folded(u, more)
    {
      var i :| 0 <= i < |headers| && f == Casefold(u, headers[i]);
      assert f == Casefold(u, more[i]);
    }
    assert Casefold(u, more[|headers|]) in Folded(u, more);
  }

  /** The search for a free name; it ends because every taken candidate folds to another of the
      finitely many used names. */
  method FirstFree(u: Unicode, ghost earlier: seq<string>, used: set<string>, base: string) returns (candidate: string)
    requires Sane(u) && used == Folded(u, earlier)
    ensures Chosen(u, earlier, base, candidate)
  {
    hide Sane, Numbered, Folded, Casefold;
    candidate := base;
    var suffix := 2;
    while Casefold(u, candidate) in used
      invariant suffix >= 2
      invariant candidate == Candidate(base, suffix - 2)
      invariant suffix > 2 ==> Taken(u, earlier, base) && AllTaken(u, earlier, base, suffix - 1)
      invariant Tried(u, base, suffix - 2) <= used
      decreases |used| - (suffix - 2)
    {
      TriedSize(u, base, suffix - 1);
      Smaller(Tried(u, base, suffix - 1), used);
      candidate := Numbered(base, suffix);
      suffix := suffix + 1;
    }
  }

  lemma Smaller<T>(a: set<T>, b: set<T>)
    requires a <= b
    ensures |a| <= |b|
  {
    assert b == a + (b - a);
  }

  // What the relation promises

  /** No two headers agree when case is ignored. */
  lemma HeadersAreDistinct(u: Unicode, values: seq<Option<string>>, headers: seq<string>, i: nat, j: nat)
    requires Deduplicated(u, values, headers) && i < j < |headers|
    ensures Casefold(u, headers[i]) != Casefold(u, headers[j])
  {
    assert Chosen(u, headers[..j], Base(u, values[j], j), headers[j]);
    assert headers[..j][i] == headers[i];
  }

  lemma HeadersAreNonEmpty(u: Unicode, values: seq<Option<string>>, headers: seq<string>, i: nat)
    requires Deduplicated(u, values, headers) && i < |headers|
    ensures headers[i] != ""
  {
    assert Chosen(u, headers[..i], Base(u, values[i], i), headers[i]);
  }

  lemma ChosenIsDetermined(u: Unicode, earlier: seq<string>, base: string, a: string, b: string)
    requires Chosen(u, earlier, base, a) && Chosen(u, earlier, base, b)
    ensures a == b
  {
    hide Casefold, Folded, Numbered;
    if a != base && b != base {
      var j: nat :| j >= 2 && a == Numbered(base, j) && AllTaken(u, earlier, base, j);
      var k: nat :| k >= 2 && b == Numbered(base, k) && AllTaken(u, earlier, base, k);
    }
  }

  /** The relation leaves no freedom: there is one right answer for every input. */
  lemma {:induction false} HeadersAreDetermined(u: Unicode, values: seq<Option<string>>, a: seq<string>, b: seq<string>)
    requires Deduplicated(u, values, a) && Deduplicated(u, values, b)
    ensures a == b
  {
    hide Chosen;
    if values != [] {
      var n := |values| - 1;
      DeduplicatedPrefix(u, values, a);
      DeduplicatedPrefix(u, values, b);
      HeadersAreDetermined(u, values[..n], a[..n], b[..n]);
      ChosenIsDetermined(u, a[..n], Base(u, values[n], n), a[n], b[n]);
      assert a == a[..n] + [a[n]] && b == b[..n] + [b[n]];
    }
  }

  lemma DeduplicatedPrefix(u: Unicode, values: seq<Option<string>>, headers: seq<string>)
    requires Deduplicated(u, values, headers) && values != []
    ensures Deduplicated(u, values[..|values| - 1], headers[..|values| - 1])
  {
    hide Chosen;
    var n := |values| - 1;
    assert forall i :: 0 <= i < n ==> headers[..n][..i] == headers[..i];
  }

  /** Names that already differ are kept as they are. */
  lemma DistinctNamesAreKept(u: Unicode, values: seq<Option<string>>, headers: seq<string>)
    requires |headers| == |values|
    requires forall i :: 0 <= i < |values| ==> headers[i] == Base(u, values[i], i)
    requires forall i, j :: 0 <= i < j < |headers| ==> Casefold(u, headers[i]) != Casefold(u, headers[j])
    ensures Deduplicated(u, values, headers)
  {
  }

  // Running it again

  function AsValues(headers: seq<string>): seq<Option<string>> {
    seq(|headers|, i requires 0 <= i < |headers| => Some(headers[i]))
  }

  predicate Trimmed(u: Unicode, s: string) {
    s != "" && !u.space(s[0]) && !u.space(s[|s| - 1])
  }

  lemma {:induction false} StripLeftTrims(u: Unicode, s: string)
    ensures StripLeft(u, s) != "" ==> !u.space(StripLeft(u, s)[0])
  {
    if s != "" && u.space(s[0]) {
      StripLeftTrims(u, s[1..]);
    }
  }

  lemma {:induction false} StripRightTrims(u: Unicode, s: string)
    ensures var r := StripRight(u, s);
            r != "" ==> !u.space(r[|r| - 1]) && r[0] == s[0]
  {
    if s != "" && u.space(s[|s| - 1]) {
      StripRightTrims(u, s[..|s| - 1]);
    }
  }

  lemma BaseIsTrimmed(u: Unicode, value: Option<string>, index: nat)
    requires Sane(u)
    ensures Trimmed(u, Base(u, value, index))
  {
    var numbered := "column_" + Decimal(index + 1);
    assert numbered[0] in "column_" && Plain(numbered[|numbered| - 1]);
    if value.Some? {
      StripLeftTrims(u, value.value);
      StripRightTrims(u, StripLeft(u, value.value));
    }
  }

  lemma HeaderIsTrimmed(u: Unicode, values: seq<Option<string>>, headers: seq<string>, i: nat)
    requires Sane(u) && Deduplicated(u, values, headers) && i < |headers|
    ensures Trimmed(u, headers[i])
  {
    hide Base, Taken, AllTaken;
    var base := Base(u, values[i], i);
    BaseIsTrimmed(u, values[i], i);
    assert Chosen(u, headers[..i], base, headers[i]);
    if headers[i] != base {
      var k: nat :| k >= 2 && headers[i] == Numbered(base, k);
      assert Plain(headers[i][|headers[i]| - 1]);
    }
  }

  /** De-duplicating twice changes nothing more. */
  lemma DeduplicationIsIdempotent(u: Unicode, values: seq<Option<string>>, headers: seq<string>)
    requires Sane(u) && Deduplicated(u, values, headers)
    ensures Deduplicated(u, AsValues(headers), headers)
  {
    hide Deduplicated, Sane, Casefold;
    forall i | 0 <= i < |headers|
      ensures headers[i] == Base(u, AsValues(headers)[i], i)
    {
      HeaderIsTrimmed(u, values, headers, i);
    }
    forall i, j | 0 <= i < j < |headers|
      ensures Casefold(u, headers[i]) != Casefold(u, headers[j])
    {
      HeadersAreDistinct(u, values, headers, i, j);
    }
    DistinctNamesAreKept(u, AsValues(headers), headers);
  }

  // What names come out

  predicate AllSpace(u: Unicode, s: string) {
    forall i :: 0 <= i < |s| ==> u.space(s[i])
  }

  lemma {:induction false} StripLeftDropsSpaces(u: Unicode, s: string) returns (k: nat)
    ensures k <= |s| && AllSpace(u, s[..k]) && StripLeft(u, s) == s[k..]
  {
    k := 0;
    if s != "" && u.space(s[0]) {
      k := StripLeftDropsSpaces(u, s[1..]);
      assert s[..k + 1] == [s[0]] + s[1..][..k];
      k := k + 1;
    }
  }

  lemma {:induction false} StripRightDropsSpaces(u: Unicode, s: string) returns (k: nat)
    ensures k <= |s| && AllSpace(u, s[k..]) && StripRight(u, s) == s[..k]
  {
    k := |s|;
    if s != "" && u.space(s[|s| - 1]) {
      var n := |s| - 1;
      k := StripRightDropsSpaces(u, s[..n]);
      assert s[k..] == s[..n][k..] + [s[n]] && s[..n][..k] == s[..k];
    }
  }

  /** A column is called by its text without the white space around it; if there is nothing else, by its
      number, counted from one. */
  lemma BaseIsTheTrimmedText(u: Unicode, value: Option<string>, index: nat) returns (from: nat, to: nat)
    requires Sane(u)
    ensures value.None? ==> Base(u, value, index) == "column_" + Decimal(index + 1)
    ensures value.Some? ==>
              && from <= to <= |value.value|
              && AllSpace(u, value.value[..from]) && AllSpace(u, value.value[to..])
              && Trimmed(u, value.value[from..to]) != (from == to)
              && Base(u, value, index)
                 == if from == to then "column_" + Decimal(index + 1) else value.value[from..to]
  {
    from, to := 0, 0;
    if value.Some? {
      var s := value.value;
      from := StripLeftDropsSpaces(u, s);
      var k := StripRightDropsSpaces(u, s[from..]);
      to := from + k;
      assert s[from..to] == s[from..][..k] && s[to..] == s[from..][k..];
      BaseIsTrimmed(u, value, index);
    }
  }

  /** Columns without a text are numbered by their place. */
  lemma UnnamedColumnsAreNumbered(u: Unicode, values: seq<Option<string>>, headers: seq<string>)
    requires Sane(u) && Deduplicated(u, values, headers)
    requires forall i :: 0 <= i < |values| ==> values[i].None?
    ensures forall i :: 0 <= i < |headers| ==> headers[i] == "column_" + Decimal(i + 1)
  {
    var named := seq(|values|, i requires 0 <= i < |values| => "column_" + Decimal(i + 1));
    forall i, j | 0 <= i < j < |named|
      ensures Casefold(u, named[i]) != Casefold(u, named[j])
    {
      assert named[i] == Numbered("column", i + 1) && named[j] == Numbered("column", j + 1) by {
        assert "column" + "_" == "column_";
      }
      if Casefold(u, named[i]) == Casefold(u, named[j]) {
        NumberedFoldsApart(u, "column", i + 1, j + 1);
      }
    }
    hide Deduplicated, Sane;
    DistinctNamesAreKept(u, values, named);
    HeadersAreDetermined(u, values, headers, named);
  }

  /** One name for every column: the first keeps it, the others get it with the numbers from two. */
  lemma RepeatedNameIsNumbered(u: Unicode, values: seq<Option<string>>, name: string, headers: seq<string>)
    requires Sane(u) && Deduplicated(u, values, headers)
    requires forall i :: 0 <= i < |values| ==> Base(u, values[i], i) == name
    ensures forall i :: 0 <= i < |headers| ==>
              headers[i] == if i == 0 then name else name + "_" + Decimal(i + 1)
  {
    hide Base;
    var named := seq(|values|, i requires 0 <= i < |values| => Candidate(name, i));
    forall i | 0 <= i < |named|
      ensures Chosen(u, named[..i], name, named[i])
    {
      CandidateIsChosen(u, named[..i], name, i);
    }
    hide Chosen, Sane;
    assert Deduplicated(u, values, named);
    HeadersAreDetermined(u, values, headers, named);
  }

  lemma CandidateIsChosen(u: Unicode, earlier: seq<string>, base: string, i: nat)
    requires Sane(u) && |earlier| == i
    requires forall j :: 0 <= j < i ==> earlier[j] == Candidate(base, j)
    ensures Chosen(u, earlier, base, Candidate(base, i))
  {
    hide Casefold, Sane;
    forall j | 0 <= j < i
      ensures Casefold(u, earlier[j]) != Casefold(u, Candidate(base, i))
    {
      CandidatesFoldApart(u, base, j, i);
    }
    if i > 0 {
      assert Casefold(u, earlier[0]) in Folded(u, earlier);
      forall k | 2 <= k < i + 1
        ensures Taken(u, earlier, Numbered(base, k))
      {
        assert earlier[k - 1] == Numbered(base, k);
        assert Casefold(u, earlier[k - 1]) in Folded(u, earlier);
      }
      assert AllTaken(u, earlier, base, i + 1);
    }
  }
}
