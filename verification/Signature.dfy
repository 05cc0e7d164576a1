/** The signature store and its pointer handlers: the stroke being drawn is the very object that
    is last in the list of strokes. */
module Signature {
  import opened Wrappers

  datatype Point = Point(x: real, y: real)

  function ClampUnit(v: real): real {
    var low := if v > 0.0 then v else 0.0;
    if low < 1.0 then low else 1.0
  }

  function Clamp(p: Point): Point { Point(ClampUnit(p.x), ClampUnit(p.y)) }

  /** Pointer events, already normalised to the box, and the two commands. */
  datatype Event =
    | Down(p: Point, button: Option<int>, mouse: bool)
    | Move(p: Point)
    | Up
    | Undo
    | Clear

  /** What can be seen from outside: the strokes, whether the last one is open, and the flag. */
  datatype Pad = Pad(strokes: seq<seq<Point>>, open: bool, drawing: bool)

  const EMPTY_PAD := Pad([], false, false)

  predicate IsIgnored(e: Event) {
    e.Down? && e.button.Some? && e.button.value != 0 && e.mouse
  }

  function Last(s: seq<seq<Point>>): seq<Point>
    requires s != []
  {
    s[|s| - 1]
  }

  function WithLast(s: seq<seq<Point>>, stroke: seq<Point>): seq<seq<Point>>
    requires s != []
  {
    s[..|s| - 1] + [stroke]
  }

  predicate IsConsistent(d: Pad) { d.open ==> d.strokes != [] && d.drawing }

  function Step(d: Pad, e: Event): Pad
    requires IsConsistent(d)
  {
    match e
    case Down(p, _, _) =>
      if IsIgnored(e) then d else Pad(d.strokes + [[Clamp(p)]], true, true)
    case Move(p) =>
      if d.drawing && d.open then d.(strokes := WithLast(d.strokes, Last(d.strokes) + [Clamp(p)])) else d
    case Up =>
      if !d.drawing then d
      else if d.open && |Last(d.strokes)| == 1 then
        Pad(WithLast(d.strokes, Last(d.strokes) + Last(d.strokes)), false, false)
      else Pad(d.strokes, false, false)
    case Undo =>
      Pad(if d.strokes == [] then [] else d.strokes[..|d.strokes| - 1], false, d.drawing)
    case Clear => Pad([], false, d.drawing)
  }

  // ----- the store and the handlers

  class Stroke {
    var points: seq<Point>

    constructor (p: Point)
      ensures points == [p]
    {
      points := [p];
    }
  }

  class SignaturePad {
    var strokes: seq<Stroke>
    var current: Stroke?
    var drawing: bool

    ghost predicate Valid()
      reads this
    {
      && (forall i, j :: 0 <= i < j < |strokes| ==> strokes[i] != strokes[j])
      && (current != null ==> strokes != [] && strokes[|strokes| - 1] == current && drawing)
    }

    ghost function View(): Pad
      reads this, strokes
    {
      Pad(seq(|strokes|, i requires 0 <= i < |strokes| reads this, strokes => strokes[i].points),
          current != null, drawing)
    }

    constructor ()
      ensures Valid() && View() == EMPTY_PAD
    {
      strokes, current, drawing := [], null, false;
    }

    method Begin(p: Point)
      requires forall i, j :: 0 <= i < j < |strokes| ==> strokes[i] != strokes[j]
      modifies this
      ensures fresh(current) && strokes == old(strokes) + [current] && drawing == old(drawing)
      ensures current.points == [Clamp(p)]
    {
      current := new Stroke(Clamp(p));
      strokes := strokes + [current];
    }

    method Extend(p: Point)
      modifies current
      ensures current != null ==> current.points == old(current.points) + [Clamp(p)]
    {
      if current == null {
        return;
      }
      current.points := current.points + [Clamp(p)];
    }

    method End()
      modifies this, current
      ensures current == null && strokes == old(strokes) && drawing == old(drawing)
      ensures old(current) != null ==>
        old(current).points == if |old(current.points)| == 1 then old(current.points) + old(current.points)
                               else old(current.points)
    {
      if current != null && |current.points| == 1 {
        current.points := current.points + [current.points[0]];
      }
      current := null;
    }

    method PointerDown(p: Point, button: Option<int>, mouse: bool)
      requires Valid()
      modifies this
      ensures Valid() && View() == Step(old(View()), Down(p, button, mouse))
      ensures IsIgnored(Down(p, button, mouse)) ==> strokes == old(strokes) && current == old(current)
      ensures !IsIgnored(Down(p, button, mouse)) ==> fresh(current) && strokes == old(strokes) + [current]
    {
      if button.Some? && button.value != 0 && mouse {
        return;
      }
      drawing := true;
      Begin(p);
    }

    method PointerMove(p: Point)
      requires Valid()
      modifies current
      ensures Valid() && View() == Step(old(View()), Move(p))
    {
      if !drawing {
        return;
      }
      Extend(p);
    }

    method PointerUp()
      requires Valid()
      modifies this, current
      ensures Valid() && View() == Step(old(View()), Up)
      ensures strokes == old(strokes) && (old(drawing) ==> current == null)
    {
      if !drawing {
        return;
      }
      drawing := false;
      End();
    }

    method UndoLast() returns (removed: Stroke?)
      requires Valid()
      modifies this
      ensures Valid() && View() == Step(old(View()), Undo)
      ensures removed == if old(strokes) == [] then null else old(strokes)[|old(strokes)| - 1]
      ensures strokes == if old(strokes) == [] then [] else old(strokes)[..|old(strokes)| - 1]
    {
      current := null;
      removed := null;
      if strokes != [] {
        removed := strokes[|strokes| - 1];
        strokes := strokes[..|strokes| - 1];
      }
    }

    method ClearAll()
      requires Valid()
      modifies this
      ensures Valid() && View() == Step(old(View()), Clear)
    {
      current := null;
      strokes := [];
    }
  }

  // ----- what every run keeps

  predicate InBox(p: Point) { 0.0 <= p.x <= 1.0 && 0.0 <= p.y <= 1.0 }

  predicate IsGood(d: Pad) {
    && IsConsistent(d)
    && forall s :: s in d.strokes ==> s != [] && forall p :: p in s ==> InBox(p)
  }

  lemma StepIsGood(d: Pad, e: Event)
    requires IsGood(d)
    ensures IsGood(Step(d, e))
  {
    var next := Step(d, e);
    forall s | s in next.strokes
      ensures s != [] && forall p :: p in s ==> InBox(p)
    {
      if s !in d.strokes {
        assert d.strokes != [] ==> Last(d.strokes) in d.strokes;
      }
    }
  }

  function Run(d: Pad, events: seq<Event>): Pad
    requires IsGood(d)
    decreases |events|
  {
    if events == [] then d
    else
      StepIsGood(d, events[0]);
      Run(Step(d, events[0]), events[1..])
  }

  /** After any events: coordinates in the unit box, no empty stroke, an open stroke only while drawing. */
  lemma {:induction false} RunIsGood(d: Pad, events: seq<Event>)
    requires IsGood(d)
    ensures IsGood(Run(d, events))
    decreases |events|
  {
    if events != [] {
      StepIsGood(d, events[0]);
      RunIsGood(Step(d, events[0]), events[1..]);
    }
  }

  /** One event touches the end of the list only: it adds a stroke, takes the last one off, lets an
      open last stroke grow, or clears; every stroke below stays as it is. */
  lemma StrokesAreAStack(d: Pad, e: Event)
    requires IsConsistent(d)
    ensures
      var next := Step(d, e).strokes;
      || next == d.strokes
      || (exists s :: next == d.strokes + [s])
      || (d.strokes != [] && next == d.strokes[..|d.strokes| - 1])
      || (d.open && |next| == |d.strokes| && next[..|next| - 1] == d.strokes[..|next| - 1]
          && Last(d.strokes) <= Last(next))
      || (e == Clear && next == [])
  {
  }

  function Moves(points: seq<Point>): seq<Event> {
    seq(|points|, i requires 0 <= i < |points| => Move(points[i]))
  }

  lemma {:induction false} RunBoth(d: Pad, a: seq<Event>, b: seq<Event>)
    requires IsGood(d)
    ensures IsGood(Run(d, a)) && Run(d, a + b) == Run(Run(d, a), b)
    decreases |a|
  {
    RunIsGood(d, a);
    if a == [] {
      assert a + b == b;
    } else {
      StepIsGood(d, a[0]);
      assert (a + b)[1..] == a[1..] + b;
      RunBoth(Step(d, a[0]), a[1..], b);
    }
  }

  lemma {:induction false} MovesKeepBelow(d: Pad, points: seq<Point>)
    requires IsGood(d) && d.open
    ensures
      var end := Run(d, Moves(points));
      end.open && |end.strokes| == |d.strokes|
      && end.strokes[..|d.strokes| - 1] == d.strokes[..|d.strokes| - 1]
    decreases |points|
  {
    if points != [] {
      StepIsGood(d, Move(points[0]));
      var next := Step(d, Move(points[0]));
      assert next.strokes[..|d.strokes| - 1] == d.strokes[..|d.strokes| - 1];
      assert Moves(points)[1..] == Moves(points[1..]);
      MovesKeepBelow(next, points[1..]);
    }
  }

  /** Undo takes back a whole gesture, however many moves it had. */
  lemma UndoTakesBackAGesture(d: Pad, p: Point, points: seq<Point>)
    requires IsGood(d) && !d.open
    ensures Run(d, [Down(p, None, false)] + (Moves(points) + [Up, Undo])) == Pad(d.strokes, false, false)
  {
    var down := Down(p, None, false);
    var drawn := Step(d, down);
    StepIsGood(d, down);
    assert ([down] + (Moves(points) + [Up, Undo]))[1..] == Moves(points) + [Up, Undo];
    RunBoth(drawn, Moves(points), [Up, Undo]);
    MovesKeepBelow(drawn, points);
    var moved := Run(drawn, Moves(points));
    StepIsGood(moved, Up);
    var up := Step(moved, Up);
    assert [Up, Undo][1..] == [Undo];
    StepIsGood(up, Undo);
    assert up.strokes[..|d.strokes|] == moved.strokes[..|d.strokes|] == d.strokes;
    assert Run(moved, [Up, Undo]) == Run(Step(up, Undo), []);
  }

  // ----- what a gesture stores

  function Distance(a: real, b: real): real { if a < b then b - a else a - b }

  /** A point inside the box is stored as it is, and any other as the point of the box nearest to it. */
  lemma NearestPointIsStored(p: Point, q: Point)
    ensures InBox(Clamp(p)) && (InBox(p) ==> Clamp(p) == p)
    ensures InBox(q) ==> Distance(Clamp(p).x, p.x) <= Distance(q.x, p.x)
    ensures InBox(q) ==> Distance(Clamp(p).y, p.y) <= Distance(q.y, p.y)
  {
  }

  function Clamped(points: seq<Point>): seq<Point> {
    seq(|points|, i requires 0 <= i < |points| => Clamp(points[i]))
  }

  lemma {:induction false} MovesAreAppended(d: Pad, points: seq<Point>)
    requires IsGood(d) && d.open
    ensures Run(d, Moves(points)) == Pad(WithLast(d.strokes, Last(d.strokes) + Clamped(points)), true, true)
    decreases |points|
  {
    if points == [] {
      assert Last(d.strokes) + Clamped([]) == Last(d.strokes);
      assert WithLast(d.strokes, Last(d.strokes)) == d.strokes;
    } else {
      StepIsGood(d, Move(points[0]));
      var next := Step(d, Move(points[0]));
      assert Moves(points)[1..] == Moves(points[1..]);
      MovesAreAppended(next, points[1..]);
      assert Last(d.strokes) + [Clamp(points[0])] + Clamped(points[1..]) == Last(d.strokes) + Clamped(points);
      assert next.strokes[..|d.strokes| - 1] == d.strokes[..|d.strokes| - 1];
    }
  }

  /** A press, any moves and a release store one stroke behind the others: the points in order, and
      a single point twice. Only a mouse button other than the first draws nothing at all. */
  lemma GestureIsStored(d: Pad, p: Point, button: Option<int>, mouse: bool, points: seq<Point>)
    requires IsGood(d) && !d.drawing
    ensures
      var stroke := if points == [] then [Clamp(p), Clamp(p)] else [Clamp(p)] + Clamped(points);
      Run(d, [Down(p, button, mouse)] + (Moves(points) + [Up]))
      == if mouse && button.Some? && button.value != 0 then d else Pad(d.strokes + [stroke], false, false)
  {
    var down := Down(p, button, mouse);
    var pressed := Step(d, down);
    StepIsGood(d, down);
    assert ([down] + (Moves(points) + [Up]))[1..] == Moves(points) + [Up];
    RunBoth(pressed, Moves(points), [Up]);
    if IsIgnored(down) {
      MovesAreIgnored(d, points);
      ReleaseEnds(d);
    } else {
      MovesAreAppended(pressed, points);
      var moved := Run(pressed, Moves(points));
      assert moved.strokes == d.strokes + [[Clamp(p)] + Clamped(points)];
      ReleaseEnds(moved);
      assert points == [] ==> [Clamp(p)] + Clamped(points) == [Clamp(p)];
      assert [Clamp(p)] + [Clamp(p)] == [Clamp(p), Clamp(p)];
    }
  }

  lemma ReleaseEnds(d: Pad)
    requires IsGood(d)
    ensures Run(d, [Up]) == Step(d, Up)
  {
    StepIsGood(d, Up);
    assert [Up][1..] == [];
  }

  lemma {:induction false} MovesAreIgnored(d: Pad, points: seq<Point>)
    requires IsGood(d) && !d.drawing
    ensures Run(d, Moves(points)) == d
    decreases |points|
  {
    if points != [] {
      StepIsGood(d, Move(points[0]));
      assert Moves(points)[1..] == Moves(points[1..]);
      MovesAreIgnored(d, points[1..]);
    }
  }

  /** Undo takes off the last stroke and clear takes off all; neither leaves a stroke open, and the
      gesture they interrupt goes on without one. */
  lemma StrokesAfterCommands(d: Pad, strokes: seq<seq<Point>>, last: seq<Point>)
    requires IsConsistent(d)
    ensures d.strokes == strokes + [last] ==> Step(d, Undo).strokes == strokes
    ensures Step(d, Clear) == Pad([], false, d.drawing)
    ensures !Step(d, Undo).open && Step(d, Undo).drawing == d.drawing
  {
  }

  // ----- strokes of one point

  /** Every stroke that is no longer open has a line to draw. */
  predicate ClosedStrokesAreLines(d: Pad) {
    forall i :: 0 <= i < |d.strokes| && (d.open ==> i < |d.strokes| - 1) ==> |d.strokes[i]| >= 2
  }

  /** Releasing the pointer doubles a single point, but a second press does not: it is the only
      event that leaves a closed stroke of one point behind. */
  lemma ClosedStrokesAreLinesIff(d: Pad, e: Event)
    requires IsGood(d) && ClosedStrokesAreLines(d)
    ensures ClosedStrokesAreLines(Step(d, e)) <==>
      !(|d.strokes| > 0 && d.open && |Last(d.strokes)| == 1 && (e.Down? && !IsIgnored(e)))
  {
    var next := Step(d, e);
    if d.open {
      assert Last(d.strokes) in d.strokes;
      if e.Down? && !IsIgnored(e) {
        assert next.strokes[|d.strokes| - 1] == Last(d.strokes);
      }
    }
  }
}
