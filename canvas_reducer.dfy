/** `canvasReducer` of src/canvas/reducer.js: the pan offset, the cursor in
    offset-adjusted coordinates, and the connecting gesture. */
module CanvasReducer {
  import opened Types

  /** The connecting state a completed link leaves behind. */
  const Idle: Connecting := Connecting(false, "")

  /** `canvasReducer(state, action)`. Each field has its own writers: the
      offset changes only under SET_OFFSET, the cursor only under TRACK, the
      connecting gesture only under CONNECT and LINK_TO. */
  function Reduce(state: CanvasState, action: Action): (r: CanvasState)
    ensures r.offset != state.offset ==> action.SetOffset?
    ensures r.cursor != state.cursor ==> action.Track?
    ensures r.connecting != state.connecting ==> action.Connect? || action.LinkTo?
  {
    match action
    case SetOffset(offset) => state.(offset := offset)
    case Track(position) => state.(cursor := Point(position.x - state.offset.x, position.y - state.offset.y))
    case Connect(connecting) => state.(connecting := connecting)
    case LinkTo(_) => state.(connecting := Idle)
    case _ => state
  }

  /** SET_OFFSET replaces the offset and nothing else. */
  lemma SetOffsetReplaces(state: CanvasState, p: Point)
    ensures var r := Reduce(state, SetOffset(p));
      r.offset == p && r.cursor == state.cursor && r.connecting == state.connecting
  {
  }

  /** TRACK stores the position relative to the current offset and touches
      nothing else. */
  lemma TrackRelative(state: CanvasState, p: Point)
    ensures var r := Reduce(state, Track(p));
      && r.cursor.x + state.offset.x == p.x
      && r.cursor.y + state.offset.y == p.y
      && r.offset == state.offset && r.connecting == state.connecting
  {
  }

  /** SET_OFFSET(o) then TRACK(p) leaves the cursor at p - o, whatever came before. */
  lemma OffsetThenTrack(state: CanvasState, o: Point, p: Point)
    ensures Reduce(Reduce(state, SetOffset(o)), Track(p)).cursor == Point(p.x - o.x, p.y - o.y)
  {
  }

  /** For example, offset (10, 10), then the mouse at (15, 15), gives a
      cursor at (5, 5). */
  lemma OffsetThenTrackExample(state: CanvasState)
    ensures Reduce(Reduce(state, SetOffset(Point(10, 10))), Track(Point(15, 15))).cursor == Point(5, 5)
  {
    OffsetThenTrack(state, Point(10, 10), Point(15, 15));
  }

  /** TRACK never changes the offset, so repeating it changes nothing. */
  lemma TrackIdempotent(state: CanvasState, p: Point)
    ensures Reduce(Reduce(state, Track(p)), Track(p)) == Reduce(state, Track(p))
  {
  }

  /** CONNECT replaces the connecting gesture wholesale and nothing else. */
  lemma ConnectReplaces(state: CanvasState, c: Connecting)
    ensures Reduce(state, Connect(c)) == CanvasState(state.offset, state.cursor, c)
  {
  }

  /** LINK_TO ends the gesture, clearing its source, changes nothing else, and
      repeating it changes nothing. */
  lemma LinkToClears(state: CanvasState, t: EntityId)
    ensures var r := Reduce(state, LinkTo(t));
      && !r.connecting.currently && r.connecting.from == ""
      && r.offset == state.offset && r.cursor == state.cursor
      && Reduce(r, LinkTo(t)) == r
  {
  }

  /** Entity and meta actions other than LINK_TO leave the canvas as it was. */
  lemma IgnoresOtherActions(state: CanvasState, action: Action)
    requires !(action.SetOffset? || action.Track? || action.Connect? || action.LinkTo?)
    ensures Reduce(state, action) == state
  {
  }
}
