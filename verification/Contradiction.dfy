/** Reopening evidence when the world contradicts it (governance/model.py). */
module Contradiction {
  import opened Prelude
  import opened ConstructionProgram

  /** The dimensions in the order evidence builds up. */
  const LADDER: seq<Dimension> :=
    [Mapped, Implemented, Integrated, Reachable, Verified, Recoverable, AuthoritySafe, ConsumerAccepted, ValueEvidenced]

  function Step(d: Dimension): (i: nat)
    ensures i < |LADDER| && LADDER[i] == d
  {
    match d
    case Mapped => 0
    case Implemented => 1
    case Integrated => 2
    case Reachable => 3
    case Verified => 4
    case Recoverable => 5
    case AuthoritySafe => 6
    case ConsumerAccepted => 7
    case ValueEvidenced => 8
  }

  function Lowered(record: Evidence, d: Dimension): Cell {
    if d in record then record[d].(state := Unproven) else Cell(Unproven, [], None)
  }

  /** The record after a contradiction at a dimension: that dimension and everything built on it is unproven,
      references and observations stay. */
  function Reopened(record: Evidence, from: Dimension): Evidence {
    map d: Dimension | d in record || Step(d) >= Step(from) ::
      if Step(d) >= Step(from) then Lowered(record, d) else record[d]
  }

  class EvidenceRecord {
    var cells: Evidence

    constructor (cells: Evidence)
      ensures this.cells == cells
    {
      this.cells := cells;
    }

    /** reopen_from_contradiction, for a known dimension. */
    method ReopenFromContradiction(from: Dimension)
      modifies this
      ensures cells == Reopened(old(cells), from)
    {
      hide Step, Lowered;
      var start := Step(from);
      for i := start to |LADDER|
        invariant forall d: Dimension :: d in cells <==> d in old(cells) || start <= Step(d) < i
        invariant forall d: Dimension :: d in cells ==>
          cells[d] == if start <= Step(d) < i then Lowered(old(cells), d) else old(cells)[d]
      {
        LadderSteps(i);
        SameLowered(cells, old(cells), LADDER[i]);
        cells := cells[LADDER[i] := Lowered(cells, LADDER[i])];
      }
      assert cells == Reopened(old(cells), from);
    }
  }

  lemma LadderSteps(i: nat)
    requires i < |LADDER|
    ensures forall d: Dimension :: Step(d) == i <==> d == LADDER[i]
  {
  }

  lemma SameLowered(a: Evidence, b: Evidence, d: Dimension)
    requires (d in a <==> d in b) && (d in a ==> a[d] == b[d])
    ensures Lowered(a, d) == Lowered(b, d)
  {
  }

  /** A contradiction takes back everything from its dimension on and nothing below it. */
  lemma ReopeningIsBounded(record: Evidence, from: Dimension, d: Dimension)
    ensures ClaimProven(Reopened(record, from), d) <==> ClaimProven(record, d) && Step(d) < Step(from)
    ensures d in record && Step(d) < Step(from) ==>
      d in Reopened(record, from) && Reopened(record, from)[d] == record[d]
    ensures d in record ==> d in Reopened(record, from) && Reopened(record, from)[d].refs == record[d].refs
  {
    hide Step;
  }

  lemma ReopenedAt(record: Evidence, from: Dimension, d: Dimension)
    ensures d in Reopened(record, from) <==> d in record || Step(d) >= Step(from)
    ensures d in Reopened(record, from) ==>
      Reopened(record, from)[d] == if Step(d) >= Step(from) then Lowered(record, d) else record[d]
  {
    hide Step, Lowered;
  }

  /** Contradictions absorb each other in either order: the lowest one decides. */
  lemma LowestContradictionDecides(record: Evidence, a: Dimension, b: Dimension)
    requires Step(a) <= Step(b)
    ensures Reopened(Reopened(record, a), b) == Reopened(record, a)
    ensures Reopened(Reopened(record, b), a) == Reopened(record, a)
  {
    hide Step, Reopened;
    var ra, rb := Reopened(record, a), Reopened(record, b);
    forall d: Dimension
      ensures (d in Reopened(ra, b) <==> d in ra) && (d in ra ==> Reopened(ra, b)[d] == ra[d])
      ensures (d in Reopened(rb, a) <==> d in ra) && (d in ra ==> Reopened(rb, a)[d] == ra[d])
    {
      ReopenedAt(record, a, d);
      ReopenedAt(record, b, d);
      ReopenedAt(ra, b, d);
      ReopenedAt(rb, a, d);
    }
  }

  /** One contradicted child whose obligation counts, whatever its class, is enough to take the parent's
      acceptance back at every dimension from the contradicted one on. */
  lemma ContradictionReopensTheParent(children: seq<Child>, k: nat, from: Dimension, d: Dimension)
    requires k < |children| && ObligationIsRequired(children[k].obligation) == Some(true) && Step(from) <= Step(d)
    ensures var reopened := children[k := children[k].(evidence := Reopened(children[k].evidence, from))];
      DeriveParentState(reopened, d) != Some(true)
  {
    ReopeningIsBounded(children[k].evidence, from, d);
    var reopened := children[k := children[k].(evidence := Reopened(children[k].evidence, from))];
    assert ObligationIsRequired(reopened[k].obligation) == Some(true);
  }
}
