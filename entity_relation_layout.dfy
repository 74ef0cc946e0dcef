/**
 * The three-column layout of the entity-relationship view: entities are
 * classified by whether they are the source or the target of some
 * relationship, three columns are chosen from the classes, and each entity
 * of a column is placed at that column's x and at its slot's y, later
 * columns overwriting earlier ones. Entities are named by their index in
 * the entity list, which stands for object identity.
 */
module EntityRelationGraph {
  import opened Common

  datatype Field = Field(name: string, typeText: string, isPrimaryKey: bool, isForeignKey: bool, description: Option<string>)

  /** An entity; `kind` is its `type` tag, which the type allows only as `table`. */
  datatype Entity = Entity(id: string, name: string, kind: string, fields: seq<Field>)

  /** A relationship as the view receives it; `relationshipType` is the display text. */
  datatype Relationship = Relationship(id: string, source: string, target: string, relationshipType: string)

  // ---------------------------------------------------------------
  // Classes of entities
  // ---------------------------------------------------------------

  predicate IsSource(rels: seq<Relationship>, id: string)
  {
    exists r :: 0 <= r < |rels| && rels[r].source == id
  }

  predicate IsTarget(rels: seq<Relationship>, id: string)
  {
    exists r :: 0 <= r < |rels| && rels[r].target == id
  }

  datatype Class = SourceOnly | TargetOnly | Middle | Isolated

  function ClassOf(rels: seq<Relationship>, id: string): Class
  {
    var s := IsSource(rels, id);
    var t := IsTarget(rels, id);
    if s && !t then SourceOnly else if t && !s then TargetOnly else if s && t then Middle else Isolated
  }

  /** The indices of the entities of one class, in list order (`entities.filter(...)`). */
  function Members(entities: seq<Entity>, rels: seq<Relationship>, c: Class): (r: seq<nat>)
    ensures forall k :: 0 <= k < |r| ==> r[k] < |entities|
    decreases |entities|
  {
    if |entities| == 0 then []
    else
      var n := |entities| - 1;
      Members(entities[..n], rels, c) + (if ClassOf(rels, entities[n].id) == c then [n] else [])
  }

  lemma {:induction false} MembersFacts(entities: seq<Entity>, rels: seq<Relationship>, c: Class)
    ensures forall i :: i in Members(entities, rels, c) <==> 0 <= i < |entities| && ClassOf(rels, entities[i].id) == c
    ensures forall a, b :: 0 <= a < b < |Members(entities, rels, c)| ==> Members(entities, rels, c)[a] < Members(entities, rels, c)[b]
    decreases |entities|
  {
    if |entities| > 0 {
      var n := |entities| - 1;
      MembersFacts(entities[..n], rels, c);
      assert forall i :: 0 <= i < n ==> entities[..n][i] == entities[i];
    }
  }

  /**
   * The four filters classify every entity exactly once: source-only,
   * target-only, both, neither; so they are pairwise disjoint and together
   * cover the entity list.
   */
  lemma Partition(entities: seq<Entity>, rels: seq<Relationship>, i: nat)
    requires i < |entities|
    ensures var id := entities[i].id;
      (i in Members(entities, rels, SourceOnly) <==> IsSource(rels, id) && !IsTarget(rels, id))
      && (i in Members(entities, rels, TargetOnly) <==> IsTarget(rels, id) && !IsSource(rels, id))
      && (i in Members(entities, rels, Middle) <==> IsSource(rels, id) && IsTarget(rels, id))
      && (i in Members(entities, rels, Isolated) <==> !IsSource(rels, id) && !IsTarget(rels, id))
    ensures exists c :: i in Members(entities, rels, c)
    ensures forall c, d :: i in Members(entities, rels, c) && i in Members(entities, rels, d) ==> c == d
  {
    MembersFacts(entities, rels, SourceOnly);
    MembersFacts(entities, rels, TargetOnly);
    MembersFacts(entities, rels, Middle);
    MembersFacts(entities, rels, Isolated);
    forall c | true
      ensures i in Members(entities, rels, c) <==> ClassOf(rels, entities[i].id) == c
    {
      MembersFacts(entities, rels, c);
    }
    assert i in Members(entities, rels, ClassOf(rels, entities[i].id));
  }

  // ---------------------------------------------------------------
  // Columns
  // ---------------------------------------------------------------

  datatype Columns = Columns(left: seq<nat>, middle: seq<nat>, right: seq<nat>)

  /** `middle.filter(e => !leftEntities.includes(e))`. */
  function Without(xs: seq<nat>, ys: seq<nat>): (r: seq<nat>)
    ensures forall k :: 0 <= k < |r| ==> r[k] in xs && r[k] !in ys
    ensures forall x :: x in xs && x !in ys ==> x in r
    decreases |xs|
  {
    if |xs| == 0 then []
    else Without(xs[..|xs| - 1], ys) + if xs[|xs| - 1] in ys then [] else [xs[|xs| - 1]]
  }

  function ChooseColumns(entities: seq<Entity>, rels: seq<Relationship>): Columns
  {
    var sources := Members(entities, rels, SourceOnly);
    var targets := Members(entities, rels, TargetOnly);
    var middle := Members(entities, rels, Middle);
    var isolated := Members(entities, rels, Isolated);
    var left := if |sources| > 0 then sources else if |middle| > 0 then [middle[0]] else if |entities| > 0 then [0] else [];
    var right := if |targets| > 0 then targets else isolated;
    Columns(left, Without(middle, left), right)
  }

  /**
   * The left column is the source-only entities, else the first entity
   * that is both, else the first entity; the right column is the
   * target-only entities, else the isolated ones; the middle column is the
   * entities that are both, less the left column.
   */
  lemma ChooseColumnsFacts(entities: seq<Entity>, rels: seq<Relationship>)
    ensures var cols := ChooseColumns(entities, rels);
      var sources := Members(entities, rels, SourceOnly);
      var middle := Members(entities, rels, Middle);
      (|sources| > 0 ==> cols.left == sources && cols.middle == middle)
      && (|sources| == 0 && |middle| > 0 ==> cols.left == [middle[0]] && cols.middle == middle[1..])
      && (|sources| == 0 && |middle| == 0 ==> cols.left == (if |entities| > 0 then [0] else []) && cols.middle == [])
    ensures var cols := ChooseColumns(entities, rels);
      var targets := Members(entities, rels, TargetOnly);
      cols.right == if |targets| > 0 then targets else Members(entities, rels, Isolated)
  {
    var sources := Members(entities, rels, SourceOnly);
    var middle := Members(entities, rels, Middle);
    MembersFacts(entities, rels, SourceOnly);
    MembersFacts(entities, rels, Middle);
    if |sources| > 0 {
      forall x | x in middle
        ensures x !in sources
      {
      }
      WithoutDisjoint(middle, sources);
    } else if |middle| > 0 {
      WithoutHead(middle);
    }
  }

  lemma {:induction false} WithoutDisjoint(xs: seq<nat>, ys: seq<nat>)
    requires forall x :: x in xs ==> x !in ys
    ensures Without(xs, ys) == xs
    decreases |xs|
  {
    if |xs| > 0 {
      WithoutDisjoint(xs[..|xs| - 1], ys);
      assert xs[..|xs| - 1] + [xs[|xs| - 1]] == xs;
    }
  }

  /** Dropping a strictly increasing sequence's head by value leaves its tail. */
  lemma {:induction false} WithoutHead(xs: seq<nat>)
    requires |xs| > 0
    requires forall a, b :: 0 <= a < b < |xs| ==> xs[a] < xs[b]
    ensures Without(xs, [xs[0]]) == xs[1..]
    decreases |xs|
  {
    if |xs| > 1 {
      var init := xs[..|xs| - 1];
      WithoutHead(init);
      assert xs[|xs| - 1] != xs[0];
      assert init[1..] + [xs[|xs| - 1]] == xs[1..];
    }
  }

  // ---------------------------------------------------------------
  // Positions
  // ---------------------------------------------------------------

  datatype Position = Position(x: real, y: real)

  /** The `width` prop: a number, or a CSS text such as the default `100%`. */
  datatype Width = NumberWidth(px: real) | TextWidth(css: string)

  function ContainerWidth(w: Width): real
  {
    if w.NumberWidth? then w.px else 1000.0
  }

  /** The y of slot `index` among `count` slots. */
  function SlotY(height: real, count: nat, index: nat): real
  {
    height / (count as real + 1.0) * (index as real + 1.0)
  }

  /** The slots of a column lie strictly inside the container and go down in order. */
  lemma SlotsInside(height: real, count: nat, i: nat, j: nat)
    requires height > 0.0 && i < j < count
    ensures 0.0 < SlotY(height, count, i) < SlotY(height, count, j) < height
  {
    var step := height / (count as real + 1.0);
    assert step > 0.0;
    assert step * (count as real + 1.0) == height;
  }

  /** One column's `forEach`: entity `ids[k]` gets the column's x and slot k of |ids|. */
  function Place(pos: map<string, Position>, entities: seq<Entity>, column: seq<nat>, n: nat, x: real, height: real): map<string, Position>
    requires n <= |column| && forall k :: 0 <= k < |column| ==> column[k] < |entities|
    decreases n
  {
    if n == 0 then pos
    else Place(pos, entities, column, n - 1, x, height)[entities[column[n - 1]].id := Position(x, SlotY(height, |column|, n - 1))]
  }

  /**
   * After a column is placed its entities have keys, at the column's x;
   * other keys are untouched.
   */
  lemma {:induction false} PlaceFacts(pos: map<string, Position>, entities: seq<Entity>, column: seq<nat>, n: nat, x: real, height: real)
    requires n <= |column| && forall k :: 0 <= k < |column| ==> column[k] < |entities|
    ensures forall id :: id in Place(pos, entities, column, n, x, height) <==>
      id in pos || exists k :: 0 <= k < n && entities[column[k]].id == id
    ensures forall k :: 0 <= k < n ==> Place(pos, entities, column, n, x, height)[entities[column[k]].id].x == x
    ensures forall id :: id in pos && (forall k :: 0 <= k < n ==> entities[column[k]].id != id) ==>
      Place(pos, entities, column, n, x, height)[id] == pos[id]
    decreases n
  {
    if n > 0 {
      PlaceFacts(pos, entities, column, n - 1, x, height);
    }
  }

  /** The entity of slot k keeps that slot's y unless a later slot of the column has the same id. */
  lemma {:induction false} PlaceSlot(pos: map<string, Position>, entities: seq<Entity>, column: seq<nat>, n: nat, x: real, height: real, k: nat)
    requires n <= |column| && forall k :: 0 <= k < |column| ==> column[k] < |entities|
    requires k < n && forall j :: k < j < n ==> entities[column[j]].id != entities[column[k]].id
    ensures entities[column[k]].id in Place(pos, entities, column, n, x, height)
    ensures Place(pos, entities, column, n, x, height)[entities[column[k]].id] == Position(x, SlotY(height, |column|, k))
    decreases n
  {
    if k < n - 1 {
      PlaceSlot(pos, entities, column, n - 1, x, height, k);
    }
  }

  function AllPlaced(entities: seq<Entity>, cols: Columns, x0: real, height: real): (m: map<string, Position>)
    requires InRange(entities, cols)
  {
    var afterLeft := Place(map[], entities, cols.left, |cols.left|, x0 * 0.2, height);
    var afterMiddle := Place(afterLeft, entities, cols.middle, |cols.middle|, x0 * 0.5, height);
    Place(afterMiddle, entities, cols.right, |cols.right|, x0 * 0.8, height)
  }

  lemma ColumnsInRange(entities: seq<Entity>, rels: seq<Relationship>)
    ensures InRange(entities, ChooseColumns(entities, rels))
  {
    var cols := ChooseColumns(entities, rels);
    assert forall k :: 0 <= k < |cols.middle| ==> cols.middle[k] in Members(entities, rels, Middle);
  }

  /** `calculateEntityPositions`: the positions of all three columns. */
  function EntityPositions(entities: seq<Entity>, rels: seq<Relationship>, width: Width, height: real): map<string, Position>
  {
    ColumnsInRange(entities, rels);
    AllPlaced(entities, ChooseColumns(entities, rels), ContainerWidth(width), height)
  }

  /** Placing a column never touches an entity outside it. */
  lemma PlaceOutside(pos: map<string, Position>, entities: seq<Entity>, column: seq<nat>, x: real, height: real, id: string)
    requires forall k :: 0 <= k < |column| ==> column[k] < |entities|
    requires !InColumn(entities, column, id)
    ensures id in Place(pos, entities, column, |column|, x, height) <==> id in pos
    ensures id in pos ==> Place(pos, entities, column, |column|, x, height)[id] == pos[id]
  {
    PlaceFacts(pos, entities, column, |column|, x, height);
    assert forall k :: 0 <= k < |column| ==> entities[column[k]].id != id;
  }

  /** Placing a column gives each of its entities a position at the column's x. */
  lemma PlaceInside(pos: map<string, Position>, entities: seq<Entity>, column: seq<nat>, x: real, height: real, id: string)
    requires forall k :: 0 <= k < |column| ==> column[k] < |entities|
    requires InColumn(entities, column, id)
    ensures id in Place(pos, entities, column, |column|, x, height)
    ensures Place(pos, entities, column, |column|, x, height)[id].x == x
  {
    PlaceFacts(pos, entities, column, |column|, x, height);
    var k :| 0 <= k < |column| && column[k] < |entities| && entities[column[k]].id == id;
  }

  /** An entity of the right column is drawn at 0.8 of the width, whatever else it is. */
  lemma RightColumnWins(entities: seq<Entity>, rels: seq<Relationship>, width: Width, height: real, id: string)
    requires InColumn(entities, ChooseColumns(entities, rels).right, id)
    ensures id in EntityPositions(entities, rels, width, height)
    ensures EntityPositions(entities, rels, width, height)[id].x == ContainerWidth(width) * 0.8
  {
    ColumnsInRange(entities, rels);
    PlacedRight(entities, ChooseColumns(entities, rels), ContainerWidth(width), height, id);
  }

  /**
   * The k-th entity of the right column, when no later entity of that
   * column shares its id, is drawn at 0.8 of the width and at slot k.
   */
  lemma RightColumnSlot(entities: seq<Entity>, rels: seq<Relationship>, width: Width, height: real, k: nat)
    requires k < |ChooseColumns(entities, rels).right|
    requires forall j :: k < j < |ChooseColumns(entities, rels).right| ==>
      entities[ChooseColumns(entities, rels).right[j]].id != entities[ChooseColumns(entities, rels).right[k]].id
    ensures entities[ChooseColumns(entities, rels).right[k]].id in EntityPositions(entities, rels, width, height)
    ensures EntityPositions(entities, rels, width, height)[entities[ChooseColumns(entities, rels).right[k]].id]
      == Position(ContainerWidth(width) * 0.8, SlotY(height, |ChooseColumns(entities, rels).right|, k))
  {
    ColumnsInRange(entities, rels);
    PlacedRightSlot(entities, ChooseColumns(entities, rels), ContainerWidth(width), height, k);
  }

  /** An entity of the middle column and not of the right one is drawn at half the width. */
  lemma MiddleColumnPosition(entities: seq<Entity>, rels: seq<Relationship>, width: Width, height: real, id: string)
    requires InColumn(entities, ChooseColumns(entities, rels).middle, id)
    requires !InColumn(entities, ChooseColumns(entities, rels).right, id)
    ensures id in EntityPositions(entities, rels, width, height)
    ensures EntityPositions(entities, rels, width, height)[id].x == ContainerWidth(width) * 0.5
  {
    ColumnsInRange(entities, rels);
    PlacedMiddle(entities, ChooseColumns(entities, rels), ContainerWidth(width), height, id);
  }

  /** An entity only of the left column is drawn at 0.2 of the width. */
  lemma LeftColumnPosition(entities: seq<Entity>, rels: seq<Relationship>, width: Width, height: real, id: string)
    requires InColumn(entities, ChooseColumns(entities, rels).left, id)
    requires !InColumn(entities, ChooseColumns(entities, rels).middle, id)
    requires !InColumn(entities, ChooseColumns(entities, rels).right, id)
    ensures id in EntityPositions(entities, rels, width, height)
    ensures EntityPositions(entities, rels, width, height)[id].x == ContainerWidth(width) * 0.2
  {
    ColumnsInRange(entities, rels);
    PlacedLeft(entities, ChooseColumns(entities, rels), ContainerWidth(width), height, id);
  }

  /** An entity of no column gets no position, so its card is drawn at (0, 0). */
  lemma UnplacedAtOrigin(entities: seq<Entity>, rels: seq<Relationship>, width: Width, height: real, id: string)
    requires !InColumn(entities, ChooseColumns(entities, rels).left, id)
    requires !InColumn(entities, ChooseColumns(entities, rels).middle, id)
    requires !InColumn(entities, ChooseColumns(entities, rels).right, id)
    ensures id !in EntityPositions(entities, rels, width, height)
    ensures CardPosition(EntityPositions(entities, rels, width, height), id) == Position(0.0, 0.0)
  {
    ColumnsInRange(entities, rels);
    NotPlaced(entities, ChooseColumns(entities, rels), ContainerWidth(width), height, id);
  }

  /** The columns' indices are all entity indices. */
  predicate InRange(entities: seq<Entity>, cols: Columns)
  {
    (forall k :: 0 <= k < |cols.left| ==> cols.left[k] < |entities|)
    && (forall k :: 0 <= k < |cols.middle| ==> cols.middle[k] < |entities|)
    && (forall k :: 0 <= k < |cols.right| ==> cols.right[k] < |entities|)
  }

  lemma PlacedRight(entities: seq<Entity>, cols: Columns, w: real, height: real, id: string)
    requires InRange(entities, cols) && InColumn(entities, cols.right, id)
    ensures id in AllPlaced(entities, cols, w, height) && AllPlaced(entities, cols, w, height)[id].x == w * 0.8
  {
    var afterLeft := Place(map[], entities, cols.left, |cols.left|, w * 0.2, height);
    var afterMiddle := Place(afterLeft, entities, cols.middle, |cols.middle|, w * 0.5, height);
    PlaceInside(afterMiddle, entities, cols.right, w * 0.8, height, id);
  }

  lemma PlacedRightSlot(entities: seq<Entity>, cols: Columns, w: real, height: real, k: nat)
    requires InRange(entities, cols) && k < |cols.right|
    requires forall j :: k < j < |cols.right| ==> entities[cols.right[j]].id != entities[cols.right[k]].id
    ensures entities[cols.right[k]].id in AllPlaced(entities, cols, w, height)
    ensures AllPlaced(entities, cols, w, height)[entities[cols.right[k]].id] == Position(w * 0.8, SlotY(height, |cols.right|, k))
  {
    var afterLeft := Place(map[], entities, cols.left, |cols.left|, w * 0.2, height);
    var afterMiddle := Place(afterLeft, entities, cols.middle, |cols.middle|, w * 0.5, height);
    PlaceSlot(afterMiddle, entities, cols.right, |cols.right|, w * 0.8, height, k);
  }

  lemma PlacedMiddle(entities: seq<Entity>, cols: Columns, w: real, height: real, id: string)
    requires InRange(entities, cols) && InColumn(entities, cols.middle, id) && !InColumn(entities, cols.right, id)
    ensures id in AllPlaced(entities, cols, w, height) && AllPlaced(entities, cols, w, height)[id].x == w * 0.5
  {
    var afterLeft := Place(map[], entities, cols.left, |cols.left|, w * 0.2, height);
    var afterMiddle := Place(afterLeft, entities, cols.middle, |cols.middle|, w * 0.5, height);
    PlaceInside(afterLeft, entities, cols.middle, w * 0.5, height, id);
    PlaceOutside(afterMiddle, entities, cols.right, w * 0.8, height, id);
  }

  lemma PlacedLeft(entities: seq<Entity>, cols: Columns, w: real, height: real, id: string)
    requires InRange(entities, cols) && InColumn(entities, cols.left, id)
    requires !InColumn(entities, cols.middle, id) && !InColumn(entities, cols.right, id)
    ensures id in AllPlaced(entities, cols, w, height) && AllPlaced(entities, cols, w, height)[id].x == w * 0.2
  {
    var afterLeft := Place(map[], entities, cols.left, |cols.left|, w * 0.2, height);
    var afterMiddle := Place(afterLeft, entities, cols.middle, |cols.middle|, w * 0.5, height);
    PlaceInside(map[], entities, cols.left, w * 0.2, height, id);
    PlaceOutside(afterLeft, entities, cols.middle, w * 0.5, height, id);
    PlaceOutside(afterMiddle, entities, cols.right, w * 0.8, height, id);
  }

  lemma NotPlaced(entities: seq<Entity>, cols: Columns, w: real, height: real, id: string)
    requires InRange(entities, cols) && !InColumn(entities, cols.left, id)
    requires !InColumn(entities, cols.middle, id) && !InColumn(entities, cols.right, id)
    ensures id !in AllPlaced(entities, cols, w, height)
  {
    var afterLeft := Place(map[], entities, cols.left, |cols.left|, w * 0.2, height);
    var afterMiddle := Place(afterLeft, entities, cols.middle, |cols.middle|, w * 0.5, height);
    PlaceOutside(map[], entities, cols.left, w * 0.2, height, id);
    PlaceOutside(afterLeft, entities, cols.middle, w * 0.5, height, id);
    PlaceOutside(afterMiddle, entities, cols.right, w * 0.8, height, id);
  }

  predicate InColumn(entities: seq<Entity>, column: seq<nat>, id: string)
  {
    exists k :: 0 <= k < |column| && column[k] < |entities| && entities[column[k]].id == id
  }

  /** Where an entity card is drawn: its position, or (0, 0) without one. */
  function CardPosition(pos: map<string, Position>, id: string): Position
  {
    if id in pos then pos[id] else Position(0.0, 0.0)
  }

  /** One column's `forEach` loop, writing into the position record. */
  method PlaceColumn(pos: map<string, Position>, entities: seq<Entity>, column: seq<nat>, x: real, height: real)
      returns (r: map<string, Position>)
    requires forall k :: 0 <= k < |column| ==> column[k] < |entities|
    ensures r == Place(pos, entities, column, |column|, x, height)
  {
    r := pos;
    var index := 0;
    while index < |column|
      invariant 0 <= index <= |column|
      invariant r == Place(pos, entities, column, index, x, height)
    {
      r := r[entities[column[index]].id := Position(x, SlotY(height, |column|, index))];
      index := index + 1;
    }
  }

  /** `calculateEntityPositions` with its three loops. */
  method CalculateEntityPositions(entities: seq<Entity>, rels: seq<Relationship>, width: Width, height: real)
      returns (pos: map<string, Position>)
    ensures pos == EntityPositions(entities, rels, width, height)
  {
    ColumnsInRange(entities, rels);
    var cols := ChooseColumns(entities, rels);
    var w := if width.NumberWidth? then width.px else 1000.0;
    pos := map[];
    pos := PlaceColumn(pos, entities, cols.left, w * 0.2, height);
    pos := PlaceColumn(pos, entities, cols.middle, w * 0.5, height);
    pos := PlaceColumn(pos, entities, cols.right, w * 0.8, height);
  }
}
