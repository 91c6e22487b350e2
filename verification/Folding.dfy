/** The text view collapses a folded section into one element; sections that overlap its end are swallowed with it. */
module Folding {

  class FoldingSection {
    var StartOffset: nat
    var EndOffset: nat
    var IsFolded: bool
    var Title: string

    constructor (start: nat, end: nat, folded: bool, title: string)
      ensures StartOffset == start && EndOffset == end && IsFolded == folded && Title == title
    {
      StartOffset, EndOffset, IsFolded, Title := start, end, folded, title;
    }

    predicate Contains(offset: nat)
      reads this
    {
      StartOffset <= offset <= EndOffset
    }

    predicate Folds(offset: nat)
      reads this
    {
      IsFolded && Contains(offset)
    }
  }

  /** Sections that contain the offset, in the order of the manager's list. */
  function GetFoldingsContaining(foldings: seq<FoldingSection>, offset: nat): (r: seq<FoldingSection>)
    reads set f | f in foldings
    ensures forall f :: f in r ==> f in foldings && f.Contains(offset)
    ensures forall f :: f in foldings && f.Contains(offset) ==> f in r
  {
    if foldings == [] then []
    else (if foldings[0].Contains(offset) then [foldings[0]] else []) + GetFoldingsContaining(foldings[1..], offset)
  }

  /** No folded section around the offset goes beyond it. */
  ghost predicate Closed(foldings: seq<FoldingSection>, offset: nat)
    reads set f | f in foldings
  {
    forall f :: f in foldings && f.IsFolded && f.StartOffset <= offset <= f.EndOffset ==> f.EndOffset == offset
  }

  ghost predicate Covered(foldings: seq<FoldingSection>, offset: nat)
    reads set f | f in foldings
  {
    exists f :: f in foldings && f.IsFolded && f.StartOffset <= offset <= f.EndOffset
  }

  /** Span swallowed by the element that is built at `offset`. */
  ghost predicate Span(foldings: seq<FoldingSection>, offset: nat, end: nat)
    reads set f | f in foldings
  {
    && offset < end
    && Closed(foldings, end)
    && (forall y :: offset < y < end ==> !Closed(foldings, y))
    && (forall y :: offset <= y <= end ==> Covered(foldings, y))
  }

  datatype Element = Nothing | Collapsed(section: FoldingSection, length: nat)

  /** Furthest end of the folded sections around the offset. */
  ghost predicate FurthestEnd(foldings: seq<FoldingSection>, offset: nat, end: nat)
    reads set f | f in foldings
  {
    && (forall f :: f in foldings && f.IsFolded && f.StartOffset <= offset <= f.EndOffset ==> f.EndOffset <= end)
    && (exists f :: f in foldings && f.IsFolded && f.StartOffset <= offset && f.EndOffset == end)
  }

  /** Every offset from `from` on, before `end`, lies in a folded section that goes beyond it. */
  ghost predicate Chained(foldings: seq<FoldingSection>, from: nat, end: nat)
    reads set f | f in foldings
  {
    forall y :: from <= y < end ==> !Closed(foldings, y)
  }

  lemma ChainOver(foldings: seq<FoldingSection>, from: nat, middle: nat, f: FoldingSection)
    requires Chained(foldings, from, middle)
    requires f in foldings && f.Folds(middle)
    ensures Chained(foldings, from, f.EndOffset)
  {
    forall y | from <= y < f.EndOffset ensures !Closed(foldings, y) {
      if middle <= y { assert f.Folds(y); }
    }
  }

  lemma CoveredByLast(foldings: seq<FoldingSection>, from: nat, end: nat, last: FoldingSection)
    requires Chained(foldings, from, end)
    requires last in foldings && last.IsFolded && last.StartOffset <= last.EndOffset == end
    ensures forall y :: from <= y <= end ==> Covered(foldings, y)
  {
    forall y | from <= y <= end ensures Covered(foldings, y) {
      if y == end {
        assert last.Folds(y);
      } else {
        assert !Closed(foldings, y);
      }
    }
  }

  ghost function Beyond(foldings: seq<FoldingSection>, offset: nat): set<FoldingSection>
    reads set f | f in foldings
  {
    set f | f in foldings && f.EndOffset > offset
  }

  /** Extends the collapsed range over every folded section that contains its end and goes further, until none does. */
  method Extend(foldings: seq<FoldingSection>, offset: nat, first: FoldingSection) returns (foldedUntil: nat)
    requires first in foldings && first.Folds(offset) && offset < first.EndOffset
    ensures Span(foldings, offset, foldedUntil)
    ensures first.EndOffset <= foldedUntil
  {
    foldedUntil := first.EndOffset;
    ghost var last := first;
    ChainOver(foldings, offset, offset, first);
    var foundOverlappingFolding := true;
    while foundOverlappingFolding
      invariant first.EndOffset <= foldedUntil
      invariant Chained(foldings, offset, foldedUntil)
      invariant last in foldings && last.IsFolded && last.StartOffset <= last.EndOffset == foldedUntil
      invariant !foundOverlappingFolding ==> Closed(foldings, foldedUntil)
      decreases |Beyond(foldings, foldedUntil)|, foundOverlappingFolding
    {
      foundOverlappingFolding := false;
      ghost var before := foldedUntil;
      var containing := GetFoldingsContaining(foldings, foldedUntil);
      var i := 0;
      while i < |containing|
        invariant 0 <= i <= |containing|
        invariant before <= foldedUntil
        invariant foundOverlappingFolding <==> before < foldedUntil
        invariant forall j :: 0 <= j < i && containing[j].IsFolded ==> containing[j].EndOffset <= foldedUntil
        invariant last in foldings && last.IsFolded && last.StartOffset <= last.EndOffset == foldedUntil
        invariant foundOverlappingFolding ==> last.Folds(before)
      {
        var fs := containing[i];
        if fs.IsFolded && fs.EndOffset > foldedUntil {
          foldedUntil := fs.EndOffset;
          last := fs;
          foundOverlappingFolding := true;
        }
        i := i + 1;
      }
      if foundOverlappingFolding {
        ChainOver(foldings, offset, before, last);
        assert last in Beyond(foldings, before) && last !in Beyond(foldings, foldedUntil);
        assert Beyond(foldings, foldedUntil) < Beyond(foldings, before);
        Fewer(Beyond(foldings, foldedUntil), Beyond(foldings, before));
      }
    }
    CoveredByLast(foldings, offset, foldedUntil, last);
  }

  lemma Fewer<T>(a: set<T>, b: set<T>)
    requires a < b
    ensures |a| < |b|
  {
    var x :| x in b && x !in a;
    assert a <= b - {x};
    FewerOrSame(a, b - {x});
  }

  lemma {:induction false} FewerOrSame<T>(a: set<T>, b: set<T>)
    requires a <= b
    ensures |a| <= |b|
    decreases a
  {
    if a != {} {
      var x :| x in a;
      FewerOrSame(a - {x}, b - {x});
    }
  }

  /** Every folded section that comes before `section` in the list ends before it. */
  ghost predicate FirstOf(containing: seq<FoldingSection>, section: FoldingSection)
    reads set f | f in containing
    reads section
  {
    exists i :: FirstAt(containing, section, i)
  }

  ghost predicate FirstAt(containing: seq<FoldingSection>, section: FoldingSection, i: nat)
    reads set f | f in containing
    reads section
  {
    && i < |containing| && containing[i] == section
    && forall j :: 0 <= j < i && containing[j].IsFolded ==> containing[j].EndOffset < section.EndOffset
  }

  lemma IsFirst(containing: seq<FoldingSection>, section: FoldingSection, i: nat)
    requires FirstAt(containing, section, i)
    ensures FirstOf(containing, section)
  {}

  method ConstructElement(foldings: seq<FoldingSection>, offset: nat) returns (r: Element)
    ensures r.Collapsed? <==> exists f :: f in foldings && f.IsFolded && f.StartOffset <= offset < f.EndOffset
    ensures r.Collapsed? ==> r.section in foldings && FurthestEnd(foldings, offset, r.section.EndOffset)
    ensures r.Collapsed? ==> FirstOf(GetFoldingsContaining(foldings, offset), r.section)
    ensures r.Collapsed? ==> Span(foldings, offset, offset + r.length)
  {
    hide Span, Closed, Covered, FirstOf;
    var foldedUntil := -1;
    var section: FoldingSection? := null;
    var containing := GetFoldingsContaining(foldings, offset);
    ghost var at := 0;
    var i := 0;
    while i < |containing|
      invariant 0 <= i <= |containing|
      invariant section != null ==> at < i && FirstAt(containing, section, at)
      invariant section == null ==> foldedUntil == -1
      invariant section != null ==> section in foldings && section.Folds(offset) && section.EndOffset == foldedUntil
      invariant forall j :: 0 <= j < i && containing[j].IsFolded ==> containing[j].EndOffset <= foldedUntil
    {
      var fs := containing[i];
      if fs.IsFolded {
        if fs.EndOffset > foldedUntil {
          foldedUntil := fs.EndOffset;
          section := fs;
          at := i;
        }
      }
      i := i + 1;
    }
    assert forall f :: f in foldings && f.Folds(offset) ==> f in containing && f.EndOffset <= foldedUntil;
    if foldedUntil > offset && section != null {
      IsFirst(containing, section, at);
      foldedUntil := Extend(foldings, offset, section);
      return Collapsed(section, foldedUntil - offset);
    }
    return Nothing;
  }

  /** The span is determined by the set of sections, and folding more of them never shortens it. */
  lemma SpanGrows(foldings: seq<FoldingSection>, more: seq<FoldingSection>, offset: nat, end: nat, other: nat)
    requires forall f :: f in foldings ==> f in more
    requires Span(foldings, offset, end) && Span(more, offset, other)
    ensures end <= other
  {
    assert Closed(more, other) ==> Closed(foldings, other);
  }
}
