/**
 * Animated spritesheets and the animated sprites that draw from them. A
 * spritesheet is read-only once loaded, so it is a value; a sprite updates
 * its sheet, its sprite name, its frame and its error flag in place, so it
 * is a class whose methods are proved against functions on its state.
 */
module Texture {
  import opened Wrappers

  /** An sf::IntRect. */
  datatype Rect = Rect(left: int, top: int, width: int, height: int)

  const EMPTY_RECT: Rect := Rect(0, 0, 0, 0)

  /** An sf::Vector2f. */
  datatype Vector2f = Vector2f(x: real, y: real)

  /** What an animated spritesheet has loaded: per sprite, its frames, their durations in milliseconds and its offset. */
  datatype Spritesheet = Spritesheet(frames: map<string, seq<Rect>>, durations: map<string, seq<int>>,
                                     offsets: map<string, Vector2f>)

  /** getFrameCount: the number of frames of a sprite, 0 for an unknown one. */
  function FrameCount(sheet: Spritesheet, sprite: string): (n: nat)
    ensures sprite in sheet.frames ==> n == |sheet.frames[sprite]|
    ensures sprite !in sheet.frames ==> n == 0
  {
    if sprite in sheet.frames then |sheet.frames[sprite]| else 0
  }

  /** getFrameRect: a frame's rectangle, or an empty one for an unknown sprite or frame. */
  function FrameRect(sheet: Spritesheet, sprite: string, frame: nat): (r: Rect)
    ensures frame < FrameCount(sheet, sprite) ==> r == sheet.frames[sprite][frame]
    ensures frame >= FrameCount(sheet, sprite) ==> r == EMPTY_RECT
  {
    if sprite in sheet.frames && frame < |sheet.frames[sprite]| then sheet.frames[sprite][frame] else EMPTY_RECT
  }

  /** getFrameDuration: a frame's duration, or zero for an unknown sprite or frame. */
  function FrameDuration(sheet: Spritesheet, sprite: string, frame: nat): (d: int)
    ensures sprite in sheet.durations && frame < |sheet.durations[sprite]| ==> d == sheet.durations[sprite][frame]
    ensures !(sprite in sheet.durations && frame < |sheet.durations[sprite]|) ==> d == 0
  {
    if sprite in sheet.durations && frame < |sheet.durations[sprite]| then sheet.durations[sprite][frame] else 0
  }

  /** getSpriteOffset: a sprite's offset, or the zero vector for an unknown sprite. */
  function SpriteOffset(sheet: Spritesheet, sprite: string): (v: Vector2f)
    ensures sprite in sheet.offsets ==> v == sheet.offsets[sprite]
    ensures sprite !in sheet.offsets ==> v == Vector2f(0.0, 0.0)
  {
    if sprite in sheet.offsets then sheet.offsets[sprite] else Vector2f(0.0, 0.0)
  }

  /** An empty sheet has no frames at all: every lookup gives its default. */
  lemma EmptySheetDefaults(sprite: string, frame: nat)
    ensures FrameCount(Spritesheet(map[], map[], map[]), sprite) == 0
    ensures FrameRect(Spritesheet(map[], map[], map[]), sprite, frame) == EMPTY_RECT
    ensures FrameDuration(Spritesheet(map[], map[], map[]), sprite, frame) == 0
    ensures SpriteOffset(Spritesheet(map[], map[], map[]), sprite) == Vector2f(0.0, 0.0)
  {
  }

  // ------------------------------------------------------------------
  // animated_sprite
  // ------------------------------------------------------------------

  /** The part of an animated sprite its setters and operators change. */
  datatype SpriteState = SpriteState(sheet: Option<Spritesheet>, spriteID: string, currentFrame: nat, errored: bool)

  /** A sprite as constructed without a sheet. */
  const NEW_SPRITE: SpriteState := SpriteState(None, "", 0, false)

  /** The frame count of the sprite's sprite in its sheet; 0 without a sheet. */
  function SheetFrameCount(s: SpriteState): nat
  {
    if s.sheet.Some? then FrameCount(s.sheet.value, s.spriteID) else 0
  }

  /** setSpritesheet: always restarts the animation. */
  function WithSpritesheet(s: SpriteState, sheet: Option<Spritesheet>): (r: SpriteState)
    ensures r.sheet == sheet && r.spriteID == s.spriteID && r.currentFrame == 0 && !r.errored
  {
    SpriteState(sheet, s.spriteID, 0, false)
  }

  /** setSprite: restarts the animation only when the name changes. */
  function WithSprite(s: SpriteState, sprite: string): (r: SpriteState)
    ensures r.spriteID == sprite && r.sheet == s.sheet
    ensures sprite == s.spriteID ==> r == s
    ensures sprite != s.spriteID ==> r.currentFrame == 0 && !r.errored
  {
    if sprite != s.spriteID then SpriteState(s.sheet, sprite, 0, false) else s
  }

  /** setCurrentFrame: nothing without a sheet; a frame past the last one stores 0. */
  function WithCurrentFrame(s: SpriteState, frame: nat): (r: SpriteState)
    ensures s.sheet.None? ==> r == s
    ensures s.sheet.Some? && frame < SheetFrameCount(s) ==> r == s.(currentFrame := frame)
    ensures s.sheet.Some? && frame >= SheetFrameCount(s) ==> r == s.(currentFrame := 0)
  {
    if s.sheet.None? then s
    else if frame >= SheetFrameCount(s) then s.(currentFrame := 0)
    else s.(currentFrame := frame)
  }

  /** Prefix ++: the next frame, through setCurrentFrame. */
  function Incremented(s: SpriteState): (r: SpriteState)
    ensures s.sheet.Some? && s.currentFrame < SheetFrameCount(s) ==>
      r == s.(currentFrame := (s.currentFrame + 1) % SheetFrameCount(s))
  {
    WithCurrentFrame(s, s.currentFrame + 1)
  }

  /** Prefix --: the previous frame, from the first frame to the last (0 when there are no frames). */
  function Decremented(s: SpriteState): (r: SpriteState)
    ensures s.sheet.None? ==> r == s
    ensures s.sheet.Some? && s.currentFrame == 0 && SheetFrameCount(s) > 0 ==>
      r == s.(currentFrame := SheetFrameCount(s) - 1)
    ensures s.sheet.Some? && s.currentFrame == 0 && SheetFrameCount(s) == 0 ==> r == s
    ensures s.sheet.Some? && 0 < s.currentFrame <= SheetFrameCount(s) ==> r == s.(currentFrame := s.currentFrame - 1)
  {
    if s.sheet.None? then s
    else if s.currentFrame == 0 then
      // size_t arithmetic: 0 - 1 is the largest size_t, which setCurrentFrame turns into 0
      var count := SheetFrameCount(s);
      if count == 0 then WithCurrentFrame(s, 0) else WithCurrentFrame(s, count - 1)
    else WithCurrentFrame(s, s.currentFrame - 1)
  }

  /** Stepping forwards and then backwards returns to the same frame, and so does the reverse. */
  lemma StepRoundTrip(s: SpriteState)
    requires s.sheet.Some? && s.currentFrame < SheetFrameCount(s)
    ensures Decremented(Incremented(s)) == s
    ensures Incremented(Decremented(s)) == s
  {
    var n := SheetFrameCount(s);
    if s.currentFrame + 1 == n {
      assert Incremented(s) == s.(currentFrame := 0);
    }
  }

  /** Every frame a sheet-backed sprite reaches through its operators is a real frame, or 0. */
  lemma StepsStayInRange(s: SpriteState)
    requires s.sheet.Some? && (s.currentFrame < SheetFrameCount(s) || s.currentFrame == 0)
    ensures Incremented(s).currentFrame < SheetFrameCount(s) || Incremented(s).currentFrame == 0
    ensures Decremented(s).currentFrame < SheetFrameCount(s) || Decremented(s).currentFrame == 0
  {
  }

  /** sfx::animated_sprite, reduced to the state its setters and operators update. */
  class AnimatedSprite {
    var sheet: Option<Spritesheet>
    var spriteID: string
    var currentFrame: nat
    var errored: bool

    function State(): SpriteState
      reads this
    {
      SpriteState(sheet, spriteID, currentFrame, errored)
    }

    /** The constructor without a sheet. */
    constructor ()
      ensures State() == NEW_SPRITE
    {
      sheet := None;
      spriteID := "";
      currentFrame := 0;
      errored := false;
    }

    /** The constructor that sets a sheet and then a sprite. */
    constructor WithSheet(sheetIn: Option<Spritesheet>, sprite: string)
      ensures State() == WithSprite(WithSpritesheet(NEW_SPRITE, sheetIn), sprite)
    {
      sheet := sheetIn;
      spriteID := "";
      currentFrame := 0;
      errored := false;
      if sprite != "" {
        spriteID := sprite;
      }
    }

    method SetSpritesheet(newSheet: Option<Spritesheet>)
      modifies this
      ensures State() == WithSpritesheet(old(State()), newSheet)
    {
      sheet := newSheet;
      errored := false;
      currentFrame := 0;
    }

    method SetSprite(sprite: string)
      modifies this
      ensures State() == WithSprite(old(State()), sprite)
    {
      if sprite != spriteID {
        spriteID := sprite;
        errored := false;
        currentFrame := 0;
      }
    }

    method SetCurrentFrame(newFrame: nat)
      modifies this
      ensures State() == WithCurrentFrame(old(State()), newFrame)
    {
      if sheet.None? {
        return;
      }
      var frame := newFrame;
      if frame >= FrameCount(sheet.value, spriteID) {
        frame := 0;
      }
      currentFrame := frame;
    }

    /** Prefix ++: returns the new frame. */
    method Increment() returns (frame: nat)
      modifies this
      ensures State() == Incremented(old(State())) && frame == currentFrame
    {
      SetCurrentFrame(currentFrame + 1);
      frame := currentFrame;
    }

    /** Postfix ++: returns the old frame. */
    method PostIncrement() returns (frame: nat)
      modifies this
      ensures State() == Incremented(old(State())) && frame == old(currentFrame)
    {
      frame := currentFrame;
      SetCurrentFrame(currentFrame + 1);
    }

    /** Prefix --: returns the new frame. */
    method Decrement() returns (frame: nat)
      modifies this
      ensures State() == Decremented(old(State())) && frame == currentFrame
    {
      if sheet.None? {
        return currentFrame;
      }
      if currentFrame == 0 {
        var count := FrameCount(sheet.value, spriteID);
        SetCurrentFrame(if count == 0 then 0 else count - 1);
      } else {
        SetCurrentFrame(currentFrame - 1);
      }
      frame := currentFrame;
    }

    /** Postfix --: returns the old frame. */
    method PostDecrement() returns (frame: nat)
      modifies this
      ensures State() == Decremented(old(State())) && frame == old(currentFrame)
    {
      frame := currentFrame;
      var _ := Decrement();
    }
  }
}
