/** Renderer.cs: a one-line frame buffer, as wide as the console window. Positions arrive already rounded to
    whole cells. */
module Renderer {
  import opened Wrappers

  /** `m_buffer`; its length is `m_width`, fixed when the renderer is created. */
  datatype Renderer = Renderer(buffer: seq<char>)

  function Width(r: Renderer): nat
  {
    |r.buffer|
  }

  /** The constructor: a fresh `char[]` of the window's width holds NUL characters. */
  function Create(width: nat): (r: Renderer)
    ensures Width(r) == width && forall i :: 0 <= i < width ==> r.buffer[i] == '\0'
  {
    Renderer(seq(width, _ => '\0'))
  }

  /** `Begin`: blank every cell. */
  method Begin(r: Renderer) returns (b: Renderer)
    ensures Width(b) == Width(r)
    ensures forall i :: 0 <= i < Width(b) ==> b.buffer[i] == ' '
  {
    var buffer := r.buffer;
    var i := 0;
    while i < |buffer|
      invariant 0 <= i <= |buffer| && |buffer| == |r.buffer|
      invariant forall j :: 0 <= j < i ==> buffer[j] == ' '
    {
      buffer := buffer[i := ' '];
      i := i + 1;
    }
    b := Renderer(buffer);
  }

  /** `DrawChar`: write `c` at cell `x` when it lies on the screen; otherwise draw nothing. */
  function DrawChar(r: Renderer, c: char, x: int): (s: Renderer)
    ensures Width(s) == Width(r)
    ensures 0 <= x < Width(r) ==> s.buffer[x] == c
    ensures forall i :: 0 <= i < Width(r) && i != x ==> s.buffer[i] == r.buffer[i]
    ensures !(0 <= x < Width(r)) ==> s == r
  {
    if 0 <= x < |r.buffer| then Renderer(r.buffer[x := c]) else r
  }

  /** `char.IsControl`: the C0 and C1 control characters. */
  predicate IsControl(c: char)
  {
    c <= '\U{1F}' || ('\U{7F}' <= c <= '\U{9F}')
  }

  /** `char.IsWhiteSpace`: the Unicode space separators, line and paragraph separators, and the control
      characters tab to carriage return and next-line. */
  predicate IsWhiteSpace(c: char)
  {
    c == ' ' || ('\t' <= c <= '\r') || c == '\U{85}' || c == '\U{A0}' || c == '\U{1680}' ||
    ('\U{2000}' <= c <= '\U{200A}') || c == '\U{2028}' || c == '\U{2029}' || c == '\U{202F}' ||
    c == '\U{205F}' || c == '\U{3000}'
  }

  /** `Character.Draw` draws its token unless it is a control or white-space character. */
  predicate Drawable(c: char)
  {
    !(IsControl(c) || IsWhiteSpace(c))
  }

  /** A character to draw, and the cell it occupies. */
  datatype Sprite = Sprite(token: char, x: int)

  /** Draw the characters in order, each as `Character.Draw` does. */
  function DrawAll(r: Renderer, sprites: seq<Sprite>): (s: Renderer)
    ensures Width(s) == Width(r)
    decreases |sprites|
  {
    if sprites == [] then r
    else
      var last := sprites[|sprites| - 1];
      var s := DrawAll(r, sprites[..|sprites| - 1]);
      if Drawable(last.token) then DrawChar(s, last.token, last.x) else s
  }

  /** The token of the last drawable sprite at cell `x`, if any. */
  function LastAt(sprites: seq<Sprite>, x: int): (c: Option<char>)
    ensures c.Some? ==> Drawable(c.value)
    decreases |sprites|
  {
    if sprites == [] then None
    else
      var last := sprites[|sprites| - 1];
      if last.x == x && Drawable(last.token) then Some(last.token) else LastAt(sprites[..|sprites| - 1], x)
  }

  /** Every cell shows the last drawable sprite placed on it, or what it held before. */
  lemma {:induction false} DrawAllCell(r: Renderer, sprites: seq<Sprite>, x: int)
    requires 0 <= x < Width(r)
    ensures DrawAll(r, sprites).buffer[x] == match LastAt(sprites, x) case Some(c) => c case None => r.buffer[x]
    decreases |sprites|
  {
    if sprites != [] {
      DrawAllCell(r, sprites[..|sprites| - 1], x);
    }
  }

  /** A frame: blank the buffer, then draw the sprites. Each cell shows the last drawable sprite on it, or a
      blank. */
  method Frame(r: Renderer, sprites: seq<Sprite>) returns (s: Renderer)
    ensures Width(s) == Width(r)
    ensures forall x :: 0 <= x < Width(r) ==>
      s.buffer[x] == match LastAt(sprites, x) case Some(c) => c case None => ' '
  {
    var b := Begin(r);
    s := DrawAll(b, sprites);
    forall x | 0 <= x < Width(r)
      ensures s.buffer[x] == match LastAt(sprites, x) case Some(c) => c case None => ' '
    {
      DrawAllCell(b, sprites, x);
    }
  }
}
