/** `FakeAdminService.filter`: the search box's case-insensitive match on name or class name. */
module RowFilter {
  import opened Common
  import opened JavaString
  import opened FakeRows

  /** The query a search text turns into: trimmed, then lower-cased. */
  function Query(text: string): string {
    ToLower(Trim(text))
  }

  /** The lower-cased character name, or "" when the name is null. */
  function NameText(r: FakeRow): string {
    if r.name.Some? then ToLower(r.name.value) else ""
  }

  /** The lower-cased class name, or "" when the class is null. */
  function ClassText(r: FakeRow): string {
    if r.classId.Some? then ToLower(r.classId.value.name) else ""
  }

  /** A row matches a query when its name or its class name contains it. */
  predicate Matches(r: FakeRow, q: string) {
    Contains(NameText(r), q) || Contains(ClassText(r), q)
  }

  /** The rows of `src` that match `q`, in the order of `src`. */
  function Selected(src: seq<FakeRow>, q: string): seq<FakeRow> {
    if src == [] then []
    else Selected(src[..|src| - 1], q) + (if Matches(src[|src| - 1], q) then [src[|src| - 1]] else [])
  }

  /** What the filter returns for `src` and `text`, case by case as the method below states it. */
  function Filtered(src: seq<FakeRow>, text: Option<string>): seq<FakeRow> {
    if src == [] then []
    else if text.None? || IsBlank(text.value) then src
    else Selected(src, Query(text.value))
  }

  /** The three cases of `Filtered`. */
  lemma FilteredCases(src: seq<FakeRow>, text: Option<string>)
    ensures src == [] ==> Filtered(src, text) == []
    ensures src != [] && (text.None? || IsBlank(text.value)) ==> Filtered(src, text) == src
    ensures src != [] && text.Some? && !IsBlank(text.value) ==> Filtered(src, text) == Selected(src, Query(text.value))
  {
  }

  /**
   * The filter: an empty source gives nothing, a null or blank text gives the source itself,
   * and any other text keeps the rows that match its query, in order.
   */
  method Filter(src: seq<FakeRow>, text: Option<string>) returns (out: seq<FakeRow>)
    ensures src == [] ==> out == []
    ensures src != [] && (text.None? || IsBlank(text.value)) ==> out == src
    ensures src != [] && text.Some? && !IsBlank(text.value) ==> out == Selected(src, Query(text.value))
  {
    if src == [] {
      return [];
    }
    if text.None? || IsBlank(text.value) {
      return src;
    }
    var q := ToLower(Trim(text.value));
    out := [];
    for i := 0 to |src|
      invariant out == Selected(src[..i], q)
    {
      var r := src[i];
      var cls := if r.classId.Some? then ToLower(r.classId.value.name) else "";
      var name := if r.name.Some? then ToLower(r.name.value) else "";
      if Contains(name, q) || Contains(cls, q) {
        out := out + [r];
      }
      assert src[..i + 1][..i] == src[..i];
    }
    assert src[..|src|] == src;
  }

  /** A row is selected exactly when it is a row of the source that matches. */
  lemma {:induction false} SelectedMembers(src: seq<FakeRow>, q: string)
    ensures forall r :: r in Selected(src, q) <==> r in src && Matches(r, q)
  {
    if src != [] {
      var init := src[..|src| - 1];
      SelectedMembers(init, q);
      assert forall r :: r in src <==> r in init || r == src[|src| - 1];
    }
  }

  /** Selecting from a list with one more row selects that row too when it matches. */
  lemma SelectedSnoc(s: seq<FakeRow>, x: FakeRow, q: string)
    ensures Selected(s + [x], q) == Selected(s, q) + (if Matches(x, q) then [x] else [])
  {
    assert (s + [x])[..|s|] == s;
  }

  /** Selection distributes over concatenation, so it keeps the source's order. */
  lemma {:induction false} SelectedConcat(a: seq<FakeRow>, b: seq<FakeRow>, q: string)
    ensures Selected(a + b, q) == Selected(a, q) + Selected(b, q)
  {
    if b == [] {
      assert a + b == a;
    } else {
      var init, last := b[..|b| - 1], b[|b| - 1];
      var t := if Matches(last, q) then [last] else [];
      assert b == init + [last];
      assert a + b == (a + init) + [last];
      calc {
        Selected(a + b, q);
        { SelectedSnoc(a + init, last, q); }
        Selected(a + init, q) + t;
        { SelectedConcat(a, init, q); }
        (Selected(a, q) + Selected(init, q)) + t;
        Selected(a, q) + (Selected(init, q) + t);
        { SelectedSnoc(init, last, q); }
        Selected(a, q) + Selected(b, q);
      }
    }
  }

  /** Filtering a filtered list again with the same query changes nothing. */
  lemma {:induction false} SelectedIdempotent(src: seq<FakeRow>, q: string)
    ensures Selected(Selected(src, q), q) == Selected(src, q)
  {
    if src != [] {
      var init := src[..|src| - 1];
      var last := src[|src| - 1];
      SelectedIdempotent(init, q);
      var tail := if Matches(last, q) then [last] else [];
      SelectedConcat(Selected(init, q), tail, q);
      assert Selected(tail, q) == tail by {
        if tail != [] {
          assert tail[..0] == [];
        }
      }
    }
  }

  /** The empty query matches every row: a text that trims to nothing keeps the whole source. */
  lemma {:induction false} EmptyQuerySelectsAll(src: seq<FakeRow>)
    ensures Selected(src, "") == src
  {
    if src != [] {
      EmptyQuerySelectsAll(src[..|src| - 1]);
      ContainsEmpty(NameText(src[|src| - 1]));
    }
  }

  /** A selection is never longer than its source. */
  lemma {:induction false} SelectedLength(src: seq<FakeRow>, q: string)
    ensures |Selected(src, q)| <= |src|
  {
    if src != [] {
      SelectedLength(src[..|src| - 1], q);
    }
  }
}
