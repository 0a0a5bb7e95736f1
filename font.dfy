/**
 * Font::createText (source/Font.cpp): splits a text into space-separated
 * words, measures each word with its glyphs' advances, moves to a new line
 * when the word does not fit the box, stops when the box is full, and
 * writes two triangles (six 2-D vertices and six texture coordinates) per
 * glyph into buffers sized for every non-space character.
 *
 * Float arithmetic on the cursor and on glyph metrics is the host's and is
 * passed in as FloatOps; comparisons and negation are exact IEEE-754
 * operations on the bit patterns.
 */
module EngineFont {
  import opened Bytes
  import opened Wrappers

  /** One glyph of the font file, already normalised by the constructor. */
  datatype Glyph = Glyph(
    x: F32, y: F32, width: F32, height: F32, normWidth: F32, normHeight: F32,
    xoffset: F32, yoffset: F32, advance: F32)

  /** The state createText reads: the glyph map, the space advance and the line height. */
  datatype FontData = FontData(glyphs: map<char, Glyph>, spaceSize: F32, lineHeight: F32)

  /** Single-precision +, - and *, as the host rounds them. */
  datatype FloatOps = FloatOps(add: (F32, F32) -> F32, sub: (F32, F32) -> F32, mul: (F32, F32) -> F32)

  /** Debug::showError(14): getCharacter on a character the font lacks. */
  datatype FontError = MissingGlyph(c: char)

  /** A glyph's rectangle: left, top, right, bottom. */
  datatype Quad = Quad(x: F32, y: F32, maxX: F32, maxY: F32)

  /** The cursor and what has been written: one vertex quad and one texture quad per glyph. */
  datatype Pen = Pen(x: F32, y: F32, quads: seq<Quad>, texQuads: seq<Quad>)

  /** Where layout ended: the pen, *remaining if it was set, and how many words were laid out. */
  datatype Layout = Layout(pen: Pen, remaining: Option<int>, laid: nat)

  /** What the Text object is given: both buffers, the byte count to upload, and *remaining. */
  datatype TextOut = TextOut(vertices: seq<F32>, texcoords: seq<F32>, byteSize: int, remaining: Option<int>)

  /** IEEE-754 negation flips the sign bit. */
  function Neg(f: F32): F32
  {
    F32(if f.bits >= SIGN_BIT then f.bits - SIGN_BIT else f.bits + SIGN_BIT)
  }

  // ---------------------------------------------------------------------------
  // Words: strtok(text, " ")
  // ---------------------------------------------------------------------------

  /** The length of the run of non-space characters s starts with. */
  function RunLength(s: string): (n: nat)
    ensures n <= |s|
    ensures forall k :: 0 <= k < n ==> s[k] != ' '
    ensures n < |s| ==> s[n] == ' '
  {
    if s == [] || s[0] == ' ' then 0 else 1 + RunLength(s[1..])
  }

  /** The tokens strtok returns: the maximal runs of non-space characters, in order. */
  function Words(s: string): (ws: seq<string>)
    decreases |s|
  {
    if s == [] then []
    else if s[0] == ' ' then Words(s[1..])
    else
      var n := RunLength(s);
      [s[..n]] + Words(s[n..])
  }

  predicate IsWord(w: string) {
    |w| > 0 && forall k :: 0 <= k < |w| ==> w[k] != ' '
  }

  /** The words one after the other. */
  function Concat(ws: seq<string>): (s: string)
  {
    if ws == [] then [] else ws[0] + Concat(ws[1..])
  }

  /** The words with one space between each two. */
  function Join(ws: seq<string>): (s: string)
  {
    if ws == [] then [] else if |ws| == 1 then ws[0] else ws[0] + " " + Join(ws[1..])
  }

  /** The characters of s that are not spaces. */
  function NonSpace(s: string): (t: string)
    ensures |t| <= |s|
  {
    if s == [] then [] else (if s[0] == ' ' then [] else [s[0]]) + NonSpace(s[1..])
  }

  /** Every token is non-empty and holds no space. */
  lemma {:induction false} WordsAreWords(s: string)
    ensures forall k :: 0 <= k < |Words(s)| ==> IsWord(Words(s)[k])
    decreases |s|
  {
    if s != [] {
      if s[0] == ' ' {
        WordsAreWords(s[1..]);
      } else {
        WordsAreWords(s[RunLength(s)..]);
      }
    }
  }

  lemma {:induction false} NonSpaceRun(s: string, n: nat)
    requires n <= |s| && forall k :: 0 <= k < n ==> s[k] != ' '
    ensures NonSpace(s) == s[..n] + NonSpace(s[n..])
  {
    if n > 0 {
      NonSpaceRun(s[1..], n - 1);
      assert s[1..][..n - 1] == s[1..n];
      assert s[1..][n - 1..] == s[n..];
      assert s[..n] == [s[0]] + s[1..n];
    }
  }

  /** The tokens hold every non-space character of the text, in order, and nothing else. */
  lemma {:induction false} WordsKeepCharacters(s: string)
    ensures Concat(Words(s)) == NonSpace(s)
    decreases |s|
  {
    if s != [] {
      if s[0] == ' ' {
        WordsKeepCharacters(s[1..]);
        assert NonSpace(s) == [] + NonSpace(s[1..]);
      } else {
        var n := RunLength(s);
        WordsKeepCharacters(s[n..]);
        NonSpaceRun(s, n);
        var ws := Words(s);
        assert ws == [s[..n]] + Words(s[n..]);
        assert ws[0] == s[..n] && ws[1..] == Words(s[n..]);
        assert Concat(ws) == s[..n] + Concat(Words(s[n..]));
      }
    }
  }

  lemma WordsOfWord(w: string)
    requires IsWord(w)
    ensures Words(w) == [w]
  {
    RunLengthIs(w, |w|);
    assert w[..|w|] == w;
    assert w[|w|..] == [];
  }

  lemma WordsAfterSpace(w: string, rest: string)
    requires IsWord(w)
    ensures Words(w + " " + rest) == [w] + Words(rest)
  {
    var s := w + " " + rest;
    RunLengthIs(s, |w|);
    assert s[..|w|] == w;
    assert s[|w|..] == " " + rest;
    assert (" " + rest)[1..] == rest;
  }

  /** Round trip: splitting words joined with single spaces gives the words back. */
  lemma {:induction false} WordsOfJoin(ws: seq<string>)
    requires forall k :: 0 <= k < |ws| ==> IsWord(ws[k])
    ensures Words(Join(ws)) == ws
  {
    if |ws| == 1 {
      WordsOfWord(ws[0]);
    } else if |ws| > 1 {
      WordsOfJoin(ws[1..]);
      WordsAfterSpace(ws[0], Join(ws[1..]));
    }
  }

  lemma {:induction false} ConcatAppend(ws: seq<string>, w: string)
    ensures Concat(ws + [w]) == Concat(ws) + w
  {
    if ws != [] {
      ConcatAppend(ws[1..], w);
      assert (ws + [w])[1..] == ws[1..] + [w];
    }
  }

  /** The strtok loop: the tokens in order, and writeLen, the sum of their lengths. */
  method SplitWords(text: string) returns (words: seq<string>, writeLen: nat)
    ensures words == Words(text)
    ensures writeLen == |Concat(words)|
  {
    words := [];
    writeLen := 0;
    var i := 0;
    while i < |text|
      invariant 0 <= i <= |text|
      invariant words + Words(text[i..]) == Words(text)
      invariant writeLen == |Concat(words)|
    {
      if text[i] == ' ' {
        assert Words(text[i..]) == Words(text[i + 1..]) by {
          assert text[i..][1..] == text[i + 1..];
        }
        i := i + 1;
      } else {
        var j := ScanWord(text, i);
        WordsAt(text, i, j);
        ConcatAppend(words, text[i..j]);
        words := words + [text[i..j]];
        writeLen := writeLen + (j - i);
        i := j;
      }
    }
  }

  /** A token starting at i and ending at j is the first word of text[i..]. */
  lemma WordsAt(text: string, i: nat, j: nat)
    requires i < |text| && text[i] != ' ' && j == i + RunLength(text[i..]) && j <= |text|
    ensures Words(text[i..]) == [text[i..j]] + Words(text[j..])
  {
    var s := text[i..];
    assert s[..j - i] == text[i..j] && s[j - i..] == text[j..];
  }

  /** The token scan: up to the next space or the end of the text. */
  method ScanWord(text: string, i: nat) returns (j: nat)
    requires i < |text| && text[i] != ' '
    ensures j == i + RunLength(text[i..]) && i < j <= |text|
  {
    j := i;
    while j < |text| && text[j] != ' '
      invariant i <= j <= |text|
      invariant forall k :: i <= k < j ==> text[k] != ' '
    {
      j := j + 1;
    }
    RunLengthIs(text[i..], j - i);
  }

  lemma {:induction false} RunLengthIs(s: string, n: nat)
    requires n <= |s| && (forall k :: 0 <= k < n ==> s[k] != ' ') && (n < |s| ==> s[n] == ' ')
    ensures RunLength(s) == n
  {
    if n > 0 {
      RunLengthIs(s[1..], n - 1);
    }
  }

  // ---------------------------------------------------------------------------
  // Layout
  // ---------------------------------------------------------------------------

  /** Every character of s has a glyph. */
  predicate InFont(glyphs: map<char, Glyph>, s: string) {
    forall k :: 0 <= k < |s| ==> s[k] in glyphs
  }

  /** The first index below n whose character the font lacks. */
  function MissingAt(glyphs: map<char, Glyph>, word: string, n: nat): (r: Option<nat>)
    requires n <= |word|
    ensures r.None? <==> forall k :: 0 <= k < n ==> word[k] in glyphs
    ensures r.Some? ==> r.value < n && word[r.value] !in glyphs && forall k :: 0 <= k < r.value ==> word[k] in glyphs
  {
    if n == 0 then None
    else
      match MissingAt(glyphs, word, n - 1)
      case Some(k) => Some(k)
      case None => if word[n - 1] in glyphs then None else Some(n - 1)
  }

  /** The sum of the advances of the first n characters. */
  function WordLength(ops: FloatOps, glyphs: map<char, Glyph>, word: string, n: nat): F32
    requires n <= |word| && forall k :: 0 <= k < n ==> word[k] in glyphs
  {
    if n == 0 then ZERO else ops.add(WordLength(ops, glyphs, word, n - 1), glyphs[word[n - 1]].advance)
  }

  /** The measuring loop: the first missing glyph is an error. */
  function Measure(ops: FloatOps, glyphs: map<char, Glyph>, word: string): (r: Result<F32, FontError>)
    ensures r.Ok? <==> InFont(glyphs, word)
    ensures r.Err? ==> r.error.c in word && r.error.c !in glyphs
  {
    match MissingAt(glyphs, word, |word|)
    case Some(k) => Err(MissingGlyph(word[k]))
    case None => Ok(WordLength(ops, glyphs, word, |word|))
  }

  /** A glyph's rectangle on the screen, from the cursor and the text size. */
  function ScreenQuad(ops: FloatOps, g: Glyph, cx: F32, cy: F32, size: F32): Quad {
    var x := ops.add(cx, ops.mul(g.xoffset, size));
    var y := ops.sub(cy, ops.mul(g.yoffset, size));
    Quad(x, y, ops.add(x, ops.mul(g.normWidth, size)), ops.sub(y, ops.mul(g.normHeight, size)))
  }

  /** A glyph's rectangle in the font texture, flipped vertically. */
  function TexQuad(ops: FloatOps, g: Glyph): Quad {
    Quad(g.x, ops.sub(ONE, g.y), ops.add(g.x, g.width), ops.sub(ops.sub(ONE, g.y), g.height))
  }

  /** The twelve floats of a quad's two triangles. */
  function Corners(q: Quad): (fs: seq<F32>)
    ensures |fs| == 12
  {
    [q.x, q.y, q.maxX, q.y, q.maxX, q.maxY, q.x, q.y, q.maxX, q.maxY, q.x, q.maxY]
  }

  /** The buffer contents for a list of quads. */
  function Vertices(qs: seq<Quad>): (fs: seq<F32>)
    ensures |fs| == 12 * |qs|
  {
    if qs == [] then [] else Vertices(qs[..|qs| - 1]) + Corners(qs[|qs| - 1])
  }

  /** n floats of zero, as calloc leaves them; none for n <= 0. */
  function Zeros(n: int): (z: seq<F32>)
    ensures |z| == if n > 0 then n else 0
    ensures forall k :: 0 <= k < |z| ==> z[k] == ZERO
  {
    if n <= 0 then [] else Zeros(n - 1) + [ZERO]
  }

  /** The cursor moved to the start of the next line. */
  function NewLine(ops: FloatOps, font: FontData, size: F32, pen: Pen): (p: Pen)
    ensures p.x == ZERO && p.quads == pen.quads && p.texQuads == pen.texQuads
  {
    pen.(x := ZERO, y := ops.sub(pen.y, ops.mul(font.lineHeight, size)))
  }

  /** One character: '\n' moves to a new line; anything else writes its glyph and advances. */
  function CharStep(ops: FloatOps, font: FontData, size: F32, pen: Pen, c: char): (p: Pen)
    requires c in font.glyphs
    ensures c == '\n' ==> p == NewLine(ops, font, size, pen)
    ensures c != '\n' ==> p.quads == pen.quads + [ScreenQuad(ops, font.glyphs[c], pen.x, pen.y, size)]
    ensures c != '\n' ==> p.texQuads == pen.texQuads + [TexQuad(ops, font.glyphs[c])] && p.y == pen.y
  {
    if c == '\n' then NewLine(ops, font, size, pen)
    else
      var g := font.glyphs[c];
      Pen(ops.add(pen.x, ops.mul(g.advance, size)), pen.y,
        pen.quads + [ScreenQuad(ops, g, pen.x, pen.y, size)], pen.texQuads + [TexQuad(ops, g)])
  }

  /** The first n characters of a word, one after the other. */
  function WordPen(ops: FloatOps, font: FontData, size: F32, pen: Pen, word: string, n: nat): Pen
    requires n <= |word| && InFont(font.glyphs, word)
  {
    if n == 0 then pen else CharStep(ops, font, size, WordPen(ops, font, size, pen, word, n - 1), word[n - 1])
  }

  /** One more character of a word is one more CharStep. */
  lemma WordPenNext(ops: FloatOps, font: FontData, size: F32, pen: Pen, word: string, j: nat)
    requires j < |word| && InFont(font.glyphs, word)
    ensures word[j] in font.glyphs
    ensures WordPen(ops, font, size, pen, word, j + 1) == CharStep(ops, font, size, WordPen(ops, font, size, pen, word, j), word[j])
  {
  }

  /** A word wider than what is left of the line starts a new one. */
  function Wrap(ops: FloatOps, font: FontData, size: F32, width: F32, pen: Pen, length: F32): (p: Pen)
    ensures p.quads == pen.quads && p.texQuads == pen.texQuads
  {
    if FLt(ops.sub(width, pen.x), ops.mul(length, size)) then NewLine(ops, font, size, pen) else pen
  }

  /** The space after a word. */
  function Space(ops: FloatOps, font: FontData, size: F32, pen: Pen): (p: Pen)
    ensures p.quads == pen.quads && p.texQuads == pen.texQuads
  {
    pen.(x := ops.add(pen.x, ops.mul(font.spaceSize, size)))
  }

  /**
   * Word i: measured (a missing glyph is an error), wrapped, and either the
   * end of layout, when the cursor is below the box, or written and
   * followed by a space.
   */
  function WordStep(ops: FloatOps, font: FontData, size: F32, width: F32, height: F32, pen: Pen, word: string, i: nat): Result<Layout, FontError>
  {
    match Measure(ops, font.glyphs, word)
    case Err(e) => Err(e)
    case Ok(length) =>
      var p := Wrap(ops, font, size, width, pen, length);
      if FLt(p.y, Neg(height)) then Ok(Layout(p, Some(|p.quads| + i), i))
      else Ok(Layout(Space(ops, font, size, WordPen(ops, font, size, p, word, |word|)), None, i + 1))
  }

  /** The word loop over the first n words. */
  function LayoutWords(ops: FloatOps, font: FontData, size: F32, width: F32, height: F32, words: seq<string>, n: nat): Result<Layout, FontError>
    requires n <= |words|
  {
    if n == 0 then Ok(Layout(Pen(ZERO, ZERO, [], []), None, 0))
    else
      match LayoutWords(ops, font, size, width, height, words, n - 1)
      case Err(e) => Err(e)
      case Ok(l) =>
        if l.remaining.Some? then Ok(l)
        else WordStep(ops, font, size, width, height, l.pen, words[n - 1], n - 1)
  }

  /** The characters of s that get a glyph written: all but '\n'. */
  function GlyphChars(s: string): (t: string)
    ensures |t| <= |s|
  {
    if s == [] then [] else GlyphChars(s[..|s| - 1]) + (if s[|s| - 1] == '\n' then [] else [s[|s| - 1]])
  }

  /** The texture quads of a list of characters. */
  function TexQuads(ops: FloatOps, font: FontData, cs: string): (qs: seq<Quad>)
    requires InFont(font.glyphs, cs)
    ensures |qs| == |cs|
  {
    if cs == [] then [] else TexQuads(ops, font, cs[..|cs| - 1]) + [TexQuad(ops, font.glyphs[cs[|cs| - 1]])]
  }

  /** The buffers handed on after layout, for a text of total non-space characters. */
  function TextOf(l: Layout, total: nat): TextOut {
    var free := 12 * total - 12 * |l.pen.quads|;
    TextOut(Vertices(l.pen.quads) + Zeros(free), Vertices(l.pen.texQuads) + Zeros(free), 48 * |l.pen.quads|, l.remaining)
  }

  /** createText on a text: its words laid out into buffers of 12 floats per non-space character. */
  function CreateTextSpec(ops: FloatOps, font: FontData, text: string, size: F32, width: F32, height: F32): Result<TextOut, FontError>
  {
    var words := Words(text);
    match LayoutWords(ops, font, size, width, height, words, |words|)
    case Err(e) => Err(e)
    case Ok(l) => Ok(TextOf(l, |Concat(words)|))
  }

  // ---------------------------------------------------------------------------
  // Facts about layout
  // ---------------------------------------------------------------------------

  /** Quad k of a buffer occupies floats 12k to 12k + 11. */
  lemma {:induction false} QuadSlots(qs: seq<Quad>, k: nat)
    requires k < |qs|
    ensures Vertices(qs)[12 * k .. 12 * k + 12] == Corners(qs[k])
  {
    var init := qs[..|qs| - 1];
    assert Vertices(qs) == Vertices(init) + Corners(qs[|qs| - 1]);
    if k < |qs| - 1 {
      QuadSlots(init, k);
      assert Vertices(qs)[12 * k .. 12 * k + 12] == Vertices(init)[12 * k .. 12 * k + 12];
    } else {
      assert Vertices(qs)[12 * k .. 12 * k + 12] == Corners(qs[|qs| - 1]);
    }
  }

  lemma {:induction false} GlyphCharsAppend(a: string, b: string)
    ensures GlyphChars(a + b) == GlyphChars(a) + GlyphChars(b)
    decreases |b|
  {
    if b == [] {
      assert a + b == a;
    } else {
      var b' := b[..|b| - 1];
      GlyphCharsAppend(a, b');
      assert (a + b)[..|a + b| - 1] == a + b';
    }
  }

  lemma {:induction false} TexQuadsAppend(ops: FloatOps, font: FontData, a: string, b: string)
    requires InFont(font.glyphs, a) && InFont(font.glyphs, b)
    ensures TexQuads(ops, font, a + b) == TexQuads(ops, font, a) + TexQuads(ops, font, b)
    decreases |b|
  {
    if b == [] {
      assert a + b == a;
    } else {
      var b' := b[..|b| - 1];
      TexQuadsAppend(ops, font, a, b');
      assert (a + b)[..|a + b| - 1] == a + b';
    }
  }

  lemma {:induction false} GlyphCharsIn(s: string, glyphs: map<char, Glyph>)
    requires InFont(glyphs, s)
    ensures InFont(glyphs, GlyphChars(s))
  {
    if s != [] {
      GlyphCharsIn(s[..|s| - 1], glyphs);
    }
  }

  /**
   * Writing the first n characters of a word adds one vertex quad and one
   * texture quad per character other than '\n', and the texture quad is
   * the glyph's own.
   */
  lemma {:induction false} WordPenGlyphs(ops: FloatOps, font: FontData, size: F32, pen: Pen, word: string, n: nat)
    requires n <= |word| && InFont(font.glyphs, word)
    ensures InFont(font.glyphs, GlyphChars(word[..n]))
    ensures var p := WordPen(ops, font, size, pen, word, n);
      && |p.quads| == |pen.quads| + |GlyphChars(word[..n])|
      && p.texQuads == pen.texQuads + TexQuads(ops, font, GlyphChars(word[..n]))
  {
    GlyphCharsIn(word[..n], font.glyphs);
    if n > 0 {
      WordPenGlyphs(ops, font, size, pen, word, n - 1);
      assert word[..n][..n - 1] == word[..n - 1];
      var cs := GlyphChars(word[..n - 1]);
      if word[n - 1] != '\n' {
        assert GlyphChars(word[..n]) == cs + [word[n - 1]];
        TexQuadsAppend(ops, font, cs, [word[n - 1]]);
        assert [word[n - 1]][..0] == [];
      } else {
        assert GlyphChars(word[..n]) == cs + [];
        assert cs + [] == cs;
      }
    }
  }

  /** Every character of every word has a glyph. */
  predicate AllInFont(font: FontData, ws: seq<string>) {
    forall i :: 0 <= i < |ws| ==> InFont(font.glyphs, ws[i])
  }

  lemma {:induction false} ConcatInFont(font: FontData, ws: seq<string>)
    requires AllInFont(font, ws)
    ensures InFont(font.glyphs, Concat(ws))
  {
    if ws != [] {
      ConcatInFont(font, ws[1..]);
      assert Concat(ws) == ws[0] + Concat(ws[1..]);
    }
  }

  /**
   * The pen has written the words ws in full: one quad per character of
   * theirs other than '\n', each texture quad the glyph's own.
   */
  predicate Wrote(ops: FloatOps, font: FontData, pen: Pen, ws: seq<string>) {
    && AllInFont(font, ws)
    && InFont(font.glyphs, GlyphChars(Concat(ws)))
    && |pen.quads| == |pen.texQuads| == |GlyphChars(Concat(ws))|
    && pen.texQuads == TexQuads(ops, font, GlyphChars(Concat(ws)))
  }

  /** Writing one more word keeps Wrote. */
  lemma WroteWord(ops: FloatOps, font: FontData, size: F32, pen: Pen, ws: seq<string>, w: string)
    requires Wrote(ops, font, pen, ws)
    requires InFont(font.glyphs, w)
    ensures Wrote(ops, font, WordPen(ops, font, size, pen, w, |w|), ws + [w])
  {
    var p := WordPen(ops, font, size, pen, w, |w|);
    var a := GlyphChars(Concat(ws));
    var b := GlyphChars(w);
    WordPenGlyphs(ops, font, size, pen, w, |w|);
    assert w[..|w|] == w;
    assert |p.quads| == |pen.quads| + |b| && p.texQuads == pen.texQuads + TexQuads(ops, font, b);
    ConcatAppend(ws, w);
    GlyphCharsAppend(Concat(ws), w);
    assert GlyphChars(Concat(ws + [w])) == a + b;
    InFontAppend(font, a, b);
    TexQuadsAppend(ops, font, a, b);
    AllInFontAppend(font, ws, w);
  }

  lemma InFontAppend(font: FontData, a: string, b: string)
    requires InFont(font.glyphs, a) && InFont(font.glyphs, b)
    ensures InFont(font.glyphs, a + b)
  {
  }

  lemma AllInFontAppend(font: FontData, ws: seq<string>, w: string)
    requires AllInFont(font, ws) && InFont(font.glyphs, w)
    ensures AllInFont(font, ws + [w])
  {
    forall i, k | 0 <= i < |ws + [w]| && 0 <= k < |(ws + [w])[i]|
      ensures (ws + [w])[i][k] in font.glyphs
    {
      if i < |ws| {
        assert (ws + [w])[i] == ws[i];
      }
    }
  }

  /**
   * After layout: the words before `laid` were written in full, and
   * *remaining, when set, is the number of glyphs written plus the index
   * of the word that did not fit.
   */
  lemma {:induction false} LayoutWritten(ops: FloatOps, font: FontData, size: F32, width: F32, height: F32, words: seq<string>, n: nat)
    requires n <= |words|
    ensures LayoutWords(ops, font, size, width, height, words, n).Ok? ==>
      var l := LayoutWords(ops, font, size, width, height, words, n).value;
      && l.laid <= n
      && (l.remaining.None? ==> l.laid == n)
      && (l.remaining.Some? ==> l.laid < n && l.remaining.value == |l.pen.quads| + l.laid)
      && Wrote(ops, font, l.pen, words[..l.laid])
  {
    if n == 0 {
      assert words[..0] == [];
      assert Concat([]) == [];
    } else {
      LayoutWritten(ops, font, size, width, height, words, n - 1);
      var prev := LayoutWords(ops, font, size, width, height, words, n - 1);
      if prev.Ok? && prev.value.remaining.None? {
        LayoutWrittenStep(ops, font, size, width, height, words, n - 1, prev.value.pen);
      }
    }
  }

  lemma LayoutWrittenStep(ops: FloatOps, font: FontData, size: F32, width: F32, height: F32, words: seq<string>, i: nat, pen: Pen)
    requires i < |words| && Wrote(ops, font, pen, words[..i])
    ensures var r := WordStep(ops, font, size, width, height, pen, words[i], i);
      r.Ok? ==>
      && r.value.laid <= i + 1
      && (r.value.remaining.None? ==> r.value.laid == i + 1)
      && (r.value.remaining.Some? ==> r.value.laid == i && r.value.remaining.value == |r.value.pen.quads| + i)
      && Wrote(ops, font, r.value.pen, words[..r.value.laid])
  {
    var w := words[i];
    var m := Measure(ops, font.glyphs, w);
    if m.Ok? {
      var p := Wrap(ops, font, size, width, pen, m.value);
      if !FLt(p.y, Neg(height)) {
        WroteWord(ops, font, size, p, words[..i], w);
        assert words[..i + 1] == words[..i] + [w];
      }
    }
  }

  /** Once layout has stopped or failed, later words change nothing. */
  lemma {:induction false} LayoutEnded(ops: FloatOps, font: FontData, size: F32, width: F32, height: F32, words: seq<string>, i: nat, n: nat)
    requires i <= n <= |words|
    requires LayoutWords(ops, font, size, width, height, words, i).Err? || LayoutWords(ops, font, size, width, height, words, i).value.remaining.Some?
    ensures LayoutWords(ops, font, size, width, height, words, n) == LayoutWords(ops, font, size, width, height, words, i)
    decreases n - i
  {
    if i < n {
      LayoutEnded(ops, font, size, width, height, words, i, n - 1);
    }
  }

  lemma {:induction false} ConcatPrefix(ws: seq<string>, n: nat)
    requires n <= |ws|
    ensures |Concat(ws[..n])| <= |Concat(ws)|
    decreases |ws| - n
  {
    if n == |ws| {
      assert ws[..n] == ws;
    } else {
      ConcatPrefix(ws, n + 1);
      assert ws[..n + 1] == ws[..n] + [ws[n]];
      ConcatAppend(ws[..n], ws[n]);
    }
  }

  /**
   * The text handed on: buffers of 12 floats per non-space character, the
   * first 12 per written glyph holding the glyphs' quads and the rest left
   * zero, and a byte count of 48 per written glyph, which never exceeds
   * the buffers.
   */
  lemma TextFits(ops: FloatOps, font: FontData, text: string, size: F32, width: F32, height: F32)
    requires CreateTextSpec(ops, font, text, size, width, height).Ok?
    ensures var t := CreateTextSpec(ops, font, text, size, width, height).value;
      var l := LayoutWords(ops, font, size, width, height, Words(text), |Words(text)|).value;
      && |t.vertices| == |t.texcoords| == 12 * |NonSpace(text)|
      && t.byteSize == 48 * |l.pen.quads| && 12 * |l.pen.quads| <= |t.vertices|
      && t.vertices[..12 * |l.pen.quads|] == Vertices(l.pen.quads)
      && t.texcoords[..12 * |l.pen.quads|] == Vertices(l.pen.texQuads)
      && forall k :: 12 * |l.pen.quads| <= k < |t.vertices| ==> t.vertices[k] == ZERO && t.texcoords[k] == ZERO
  {
    WordsKeepCharacters(text);
    var words := Words(text);
    var l := LayoutWords(ops, font, size, width, height, words, |words|).value;
    LayoutWritten(ops, font, size, width, height, words, |words|);
    ConcatPrefix(words, l.laid);
  }

  // ---------------------------------------------------------------------------
  // createText
  // ---------------------------------------------------------------------------

  /** A buffer holding the quads qs, twelve floats each, then zeros to its end. */
  predicate Filled(buf: seq<F32>, qs: seq<Quad>) {
    12 * |qs| <= |buf| && buf == Vertices(qs) + Zeros(|buf| - 12 * |qs|)
  }

  /** The twelve writes of one quad. */
  method PutQuad(a: array<F32>, offset: nat, q: Quad)
    requires offset + 12 <= a.Length
    modifies a
    ensures a[..offset] == old(a[..offset]) && a[offset + 12..] == old(a[offset + 12..])
    ensures a[offset..offset + 12] == Corners(q)
  {
    a[offset + 0] := q.x;
    a[offset + 1] := q.y;
    a[offset + 2] := q.maxX;
    a[offset + 3] := q.y;
    a[offset + 4] := q.maxX;
    a[offset + 5] := q.maxY;
    a[offset + 6] := q.x;
    a[offset + 7] := q.y;
    a[offset + 8] := q.maxX;
    a[offset + 9] := q.maxY;
    a[offset + 10] := q.x;
    a[offset + 11] := q.maxY;
  }

  /** A buffer of written quads and zeros, with one more quad written after them. */
  lemma BufferPut(before: seq<F32>, after: seq<F32>, qs: seq<Quad>, q: Quad)
    requires |after| == |before| && 12 * |qs| + 12 <= |before|
    requires before == Vertices(qs) + Zeros(|before| - 12 * |qs|)
    requires after[..12 * |qs|] == before[..12 * |qs|] && after[12 * |qs| + 12..] == before[12 * |qs| + 12..]
    requires after[12 * |qs| .. 12 * |qs| + 12] == Corners(q)
    ensures after == Vertices(qs + [q]) + Zeros(|before| - 12 * |qs| - 12)
  {
    var o := 12 * |qs|;
    VerticesSnoc(qs, q);
    PrefixOfConcat(Vertices(qs), Zeros(|before| - o));
    ZerosDrop(Vertices(qs), |before| - o);
    SplitThree(after, o, o + 12);
  }

  lemma VerticesSnoc(qs: seq<Quad>, q: Quad)
    ensures Vertices(qs + [q]) == Vertices(qs) + Corners(q)
  {
    assert (qs + [q])[..|qs|] == qs;
  }

  lemma PrefixOfConcat<T>(a: seq<T>, b: seq<T>)
    ensures (a + b)[..|a|] == a
  {
  }

  /** Past the written quads and one more slot, the zeros continue. */
  lemma ZerosDrop(v: seq<F32>, n: int)
    requires n >= 12
    ensures (v + Zeros(n))[|v| + 12..] == Zeros(n - 12)
  {
    var z := (v + Zeros(n))[|v| + 12..];
    assert |z| == n - 12;
    forall k | 0 <= k < n - 12
      ensures z[k] == Zeros(n - 12)[k]
    {
      assert z[k] == Zeros(n)[k + 12];
    }
  }

  lemma SplitThree<T>(s: seq<T>, i: nat, j: nat)
    requires i <= j <= |s|
    ensures s == s[..i] + s[i..j] + s[j..]
  {
  }

  /** The measuring loop of one word. */
  method MeasureWord(ops: FloatOps, font: FontData, word: string) returns (r: Result<F32, FontError>)
    ensures r == Measure(ops, font.glyphs, word)
  {
    var length := ZERO;
    var j := 0;
    while j < |word|
      invariant 0 <= j <= |word|
      invariant MissingAt(font.glyphs, word, j).None?
      invariant length == WordLength(ops, font.glyphs, word, j)
    {
      if word[j] !in font.glyphs {
        return Err(MissingGlyph(word[j]));
      }
      length := ops.add(length, font.glyphs[word[j]].advance);
      j := j + 1;
    }
    return Ok(length);
  }

  /** One glyph: its quads written at twelve times the glyph count, then the cursor advanced. */
  method WriteGlyph(ops: FloatOps, font: FontData, size: F32, vertices: array<F32>, texcoords: array<F32>,
                    c: char, x0: F32, y0: F32, written0: nat, ghost q0: seq<Quad>, ghost t0: seq<Quad>)
    returns (cursorX: F32, written: nat, ghost quads: seq<Quad>, ghost texQuads: seq<Quad>)
    requires vertices != texcoords && vertices.Length == texcoords.Length
    requires c in font.glyphs && c != '\n'
    requires written0 == |q0| == |t0| && 12 * written0 + 12 <= vertices.Length
    requires Filled(vertices[..], q0)
    requires Filled(texcoords[..], t0)
    modifies vertices, texcoords
    ensures Pen(cursorX, y0, quads, texQuads) == CharStep(ops, font, size, Pen(x0, y0, q0, t0), c)
    ensures written == written0 + 1 == |quads| == |texQuads|
    ensures Filled(vertices[..], quads)
    ensures Filled(texcoords[..], texQuads)
  {
    var character := font.glyphs[c];
    var offset := written0 * 12;
    var q := ScreenQuad(ops, character, x0, y0, size);
    var t := TexQuad(ops, character);
    ghost var v0 := vertices[..];
    PutQuad(vertices, offset, q);
    ghost var tc0 := texcoords[..];
    PutQuad(texcoords, offset, t);
    BufferPut(v0, vertices[..], q0, q);
    BufferPut(tc0, texcoords[..], t0, t);
    quads := q0 + [q];
    texQuads := t0 + [t];
    cursorX := ops.add(x0, ops.mul(character.advance, size));
    written := written0 + 1;
  }

  /** One character of a word: '\n' starts a new line and writes nothing. */
  method WriteChar(ops: FloatOps, font: FontData, size: F32, vertices: array<F32>, texcoords: array<F32>,
                   c: char, x0: F32, y0: F32, written0: nat, ghost q0: seq<Quad>, ghost t0: seq<Quad>)
    returns (cursorX: F32, cursorY: F32, written: nat, ghost quads: seq<Quad>, ghost texQuads: seq<Quad>)
    requires vertices != texcoords && vertices.Length == texcoords.Length
    requires c in font.glyphs
    requires written0 == |q0| == |t0| && 12 * written0 + 12 <= vertices.Length
    requires Filled(vertices[..], q0)
    requires Filled(texcoords[..], t0)
    modifies vertices, texcoords
    ensures Pen(cursorX, cursorY, quads, texQuads) == CharStep(ops, font, size, Pen(x0, y0, q0, t0), c)
    ensures written == |quads| == |texQuads| <= written0 + 1
    ensures Filled(vertices[..], quads)
    ensures Filled(texcoords[..], texQuads)
  {
    if c == '\n' {
      cursorY := ops.sub(y0, ops.mul(font.lineHeight, size));
      cursorX := ZERO;
      written, quads, texQuads := written0, q0, t0;
      return;
    }
    cursorY := y0;
    cursorX, written, quads, texQuads := WriteGlyph(ops, font, size, vertices, texcoords, c, x0, y0, written0, q0, t0);
  }

  /** The writing loop of one word: a quad per character, '\n' starting a new line. */
  method WriteWord(ops: FloatOps, font: FontData, size: F32, vertices: array<F32>, texcoords: array<F32>,
                   word: string, x0: F32, y0: F32, written0: nat, ghost q0: seq<Quad>, ghost t0: seq<Quad>)
    returns (cursorX: F32, cursorY: F32, written: nat, ghost quads: seq<Quad>, ghost texQuads: seq<Quad>)
    requires vertices != texcoords && vertices.Length == texcoords.Length
    requires InFont(font.glyphs, word)
    requires written0 == |q0| == |t0| && 12 * (written0 + |word|) <= vertices.Length
    requires Filled(vertices[..], q0)
    requires Filled(texcoords[..], t0)
    modifies vertices, texcoords
    ensures Pen(cursorX, cursorY, quads, texQuads) == WordPen(ops, font, size, Pen(x0, y0, q0, t0), word, |word|)
    ensures written == |quads| == |texQuads| <= written0 + |word|
    ensures Filled(vertices[..], quads)
    ensures Filled(texcoords[..], texQuads)
  {
    cursorX, cursorY, written, quads, texQuads := x0, y0, written0, q0, t0;
    var j := 0;
    while j < |word|
      invariant 0 <= j <= |word|
      invariant Pen(cursorX, cursorY, quads, texQuads) == WordPen(ops, font, size, Pen(x0, y0, q0, t0), word, j)
      invariant written == |quads| == |texQuads| <= written0 + j
      invariant Filled(vertices[..], quads)
      invariant Filled(texcoords[..], texQuads)
    {
      WordPenNext(ops, font, size, Pen(x0, y0, q0, t0), word, j);
      cursorX, cursorY, written, quads, texQuads :=
        WriteChar(ops, font, size, vertices, texcoords, word[j], cursorX, cursorY, written, quads, texQuads);
      j := j + 1;
    }
  }

  /**
   * One word of createText: measured, wrapped, and then either the end of
   * layout (the remaining count is returned) or written and followed by a
   * space.
   */
  method PlaceWord(ops: FloatOps, font: FontData, size: F32, width: F32, height: F32,
                   vertices: array<F32>, texcoords: array<F32>, word: string, i: nat,
                   x0: F32, y0: F32, written0: nat, ghost q0: seq<Quad>, ghost t0: seq<Quad>)
    returns (r: Result<Option<int>, FontError>, cursorX: F32, cursorY: F32, written: nat, ghost quads: seq<Quad>, ghost texQuads: seq<Quad>)
    requires vertices != texcoords && vertices.Length == texcoords.Length
    requires written0 == |q0| == |t0| && 12 * (written0 + |word|) <= vertices.Length
    requires Filled(vertices[..], q0) && Filled(texcoords[..], t0)
    modifies vertices, texcoords
    ensures r.Err? ==> WordStep(ops, font, size, width, height, Pen(x0, y0, q0, t0), word, i) == Err(r.error)
    ensures r.Ok? ==>
      WordStep(ops, font, size, width, height, Pen(x0, y0, q0, t0), word, i) == Ok(Layout(Pen(cursorX, cursorY, quads, texQuads), r.value, if r.value.Some? then i else i + 1))
    ensures written == |quads| == |texQuads| <= written0 + |word|
    ensures Filled(vertices[..], quads) && Filled(texcoords[..], texQuads)
  {
    cursorX, cursorY, written, quads, texQuads := x0, y0, written0, q0, t0;
    var length := MeasureWord(ops, font, word);
    if length.Err? {
      return Err(length.error), cursorX, cursorY, written, quads, texQuads;
    }
    if FLt(ops.sub(width, cursorX), ops.mul(length.value, size)) {
      cursorY := ops.sub(cursorY, ops.mul(font.lineHeight, size));
      cursorX := ZERO;
    }
    if FLt(cursorY, Neg(height)) {
      return Ok(Some(written + i)), cursorX, cursorY, written, quads, texQuads;
    }
    cursorX, cursorY, written, quads, texQuads :=
      WriteWord(ops, font, size, vertices, texcoords, word, cursorX, cursorY, written, quads, texQuads);
    cursorX := ops.add(cursorX, ops.mul(font.spaceSize, size));
    r := Ok(None);
  }

  /** Buffers filled with a finished layout's quads are createText's result. */
  lemma TextOfLayout(ops: FloatOps, font: FontData, text: string, size: F32, width: F32, height: F32,
                     words: seq<string>, l: Layout, vbuf: seq<F32>, tbuf: seq<F32>)
    requires words == Words(text)
    requires LayoutWords(ops, font, size, width, height, words, |words|) == Ok(l)
    requires |vbuf| == |tbuf| == 12 * |Concat(words)| && |l.pen.quads| == |l.pen.texQuads|
    requires Filled(vbuf, l.pen.quads) && Filled(tbuf, l.pen.texQuads)
    ensures CreateTextSpec(ops, font, text, size, width, height) == Ok(TextOut(vbuf, tbuf, 48 * |l.pen.quads|, l.remaining))
  {
  }

  /** The characters of the words up to i, and word i, fit in the buffers. */
  lemma RoomForWord(words: seq<string>, i: nat)
    requires i < |words|
    ensures |Concat(words[..i])| + |words[i]| == |Concat(words[..i + 1])| <= |Concat(words)|
  {
    assert words[..i + 1] == words[..i] + [words[i]];
    ConcatAppend(words[..i], words[i]);
    ConcatPrefix(words, i + 1);
  }

  /** The word loop of createText, writing into buffers sized for every word. */
  method WriteWords(ops: FloatOps, font: FontData, size: F32, width: F32, height: F32, words: seq<string>,
                    vertices: array<F32>, texcoords: array<F32>)
    returns (r: Result<Option<int>, FontError>, written: nat, ghost final: Layout)
    requires vertices != texcoords && vertices.Length == texcoords.Length == 12 * |Concat(words)|
    requires Filled(vertices[..], []) && Filled(texcoords[..], [])
    modifies vertices, texcoords
    ensures r.Err? ==> LayoutWords(ops, font, size, width, height, words, |words|) == Err(r.error)
    ensures r.Ok? ==> LayoutWords(ops, font, size, width, height, words, |words|) == Ok(final) && final.remaining == r.value
    ensures written == |final.pen.quads| == |final.pen.texQuads|
    ensures Filled(vertices[..], final.pen.quads) && Filled(texcoords[..], final.pen.texQuads)
  {
    var cursorX, cursorY := ZERO, ZERO;
    written := 0;
    ghost var quads: seq<Quad> := [];
    ghost var texQuads: seq<Quad> := [];
    var i := 0;
    while i < |words|
      invariant 0 <= i <= |words|
      invariant LayoutWords(ops, font, size, width, height, words, i) == Ok(Layout(Pen(cursorX, cursorY, quads, texQuads), None, i))
      invariant written == |quads| == |texQuads| <= |Concat(words[..i])|
      invariant Filled(vertices[..], quads) && Filled(texcoords[..], texQuads)
    {
      ghost var pen := Pen(cursorX, cursorY, quads, texQuads);
      RoomForWord(words, i);
      var step;
      step, cursorX, cursorY, written, quads, texQuads :=
        PlaceWord(ops, font, size, width, height, vertices, texcoords, words[i], i, cursorX, cursorY, written, quads, texQuads);
      assert LayoutWords(ops, font, size, width, height, words, i + 1) == WordStep(ops, font, size, width, height, pen, words[i], i);
      final := Layout(Pen(cursorX, cursorY, quads, texQuads), None, i + 1);
      if step.Err? {
        LayoutEnded(ops, font, size, width, height, words, i + 1, |words|);
        return Err(step.error), written, final;
      }
      if step.value.Some? {
        final := Layout(Pen(cursorX, cursorY, quads, texQuads), step.value, i);
        LayoutEnded(ops, font, size, width, height, words, i + 1, |words|);
        return Ok(step.value), written, final;
      }
      i := i + 1;
    }
    final := Layout(Pen(cursorX, cursorY, quads, texQuads), None, i);
    r := Ok(None);
  }

  /** Font::createText. */
  method CreateText(ops: FloatOps, font: FontData, text: string, size: F32, width: F32, height: F32) returns (r: Result<TextOut, FontError>)
    ensures r == CreateTextSpec(ops, font, text, size, width, height)
  {
    var words, writeLen := SplitWords(text);
    var bufferSize := writeLen * 12;
    var vertices := new F32[bufferSize](_ => ZERO);
    var texcoords := new F32[bufferSize](_ => ZERO);
    assert vertices[..] == Zeros(bufferSize);
    assert texcoords[..] == Zeros(bufferSize);
    var remaining, written, final := WriteWords(ops, font, size, width, height, words, vertices, texcoords);
    if remaining.Err? {
      return Err(remaining.error);
    }
    TextOfLayout(ops, font, text, size, width, height, words, final, vertices[..], texcoords[..]);
    return Ok(TextOut(vertices[..], texcoords[..], 48 * written, remaining.value));
  }
}
