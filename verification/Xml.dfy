/** XML as the token sequence a streaming reader reports and a streaming writer produces. */
module Xml {
  import opened Sources

  /** An attribute value: a formatted integer or any other text. */
  datatype Attr = Num(n: int) | Str(s: string)

  /** Attribute names. */
  datatype Key =
    | Version | Date | Position | Number | Description
    | Points | UseDewell | Dewell | Repeats | Mode
    | PulseR | PulseG | PulseB | RotateH | RotateS | RotateV
    | ColourOverride | OverrideR | OverrideG | OverrideB

  type Attrs = map<Key, Attr>

  /** Text carries the bytes its characters stand for under base64 (section 4 of RFC 4648). */
  datatype Token =
    | NoToken
    | StartDocument
    | EndDocument
    | Invalid
    | Start(tag: Tag, attrs: Attrs)
    | End(tag: Tag)
    | Text(bytes: seq<U8>)

  type Doc = seq<Token>

  // Reading one token

  /** Past the last token the reader reports an invalid one. */
  function TokenAt(doc: Doc, pos: nat): Token {
    if pos < |doc| then doc[pos] else Invalid
  }

  predicate AtEnd(doc: Doc, pos: nat) {
    TokenAt(doc, pos).Invalid? || TokenAt(doc, pos).EndDocument?
  }

  function TokenName(t: Token): Tag {
    if t.Start? || t.End? then t.tag else NoName
  }

  function TokenText(t: Token): seq<U8> {
    if t.Text? then t.bytes else []
  }

  function TokenAttrs(t: Token): Attrs {
    if t.Start? then t.attrs else map[]
  }

  /** Signed 32-bit conversion of an attribute: zero when absent, not a number or out of range. */
  function ToInt(a: Attrs, key: Key): int {
    if key in a && a[key].Num? && -0x8000_0000 <= a[key].n < 0x8000_0000 then a[key].n else 0
  }

  function ToUInt(a: Attrs, key: Key): U32 {
    if key in a && a[key].Num? && 0 <= a[key].n < 0x1_0000_0000 then a[key].n else 0
  }

  function ToULong(a: Attrs, key: Key): nat {
    if key in a && a[key].Num? && 0 <= a[key].n < 0x1_0000_0000_0000_0000 then a[key].n else 0
  }

  function ToText(a: Attrs, key: Key): string {
    if key in a && a[key].Str? then a[key].s else ""
  }

  // Cursor movements

  function Next(doc: Doc, pos: nat): nat {
    if pos < |doc| then pos + 1 else pos
  }

  /** The first position from here on that is a start tag or the end of input. */
  function SkipToStart(doc: Doc, pos: nat): (p: nat)
    ensures pos <= p
    ensures AtEnd(doc, p) || doc[p].Start?
    decreases |doc| - pos
  {
    if AtEnd(doc, pos) || TokenAt(doc, pos).Start? then pos else SkipToStart(doc, pos + 1)
  }

  /** The next start or end tag strictly after here. */
  function NextTag(doc: Doc, pos: nat): (p: nat)
    ensures pos <= p && (pos < |doc| ==> pos < p <= |doc|)
    ensures p < |doc| ==> doc[p].Start? || doc[p].End? || doc[p].Invalid?
    decreases |doc| - pos
  {
    var p := Next(doc, pos);
    if TokenAt(doc, p).Invalid? || TokenAt(doc, p).Start? || TokenAt(doc, p).End? then p else NextTag(doc, p)
  }

  /** The first position from here on whose tag has this name, or the end of input. */
  function FindName(doc: Doc, pos: nat, name: Tag): (p: nat)
    ensures pos <= p
    ensures AtEnd(doc, p) || TokenName(doc[p]) == name
    decreases |doc| - pos
  {
    if AtEnd(doc, pos) || TokenName(TokenAt(doc, pos)) == name then pos else FindName(doc, pos + 1, name)
  }

  // Stretches without a start tag

  predicate Blank(ws: seq<Token>) {
    forall i | 0 <= i < |ws| :: ws[i].Text?
  }

  predicate AllText(doc: Doc, a: nat, b: nat) {
    a <= b <= |doc| && forall i | a <= i < b :: doc[i].Text?
  }

  /** Only end tags and text from a up to b: the cursor may be anywhere in here and the next start tag
      it finds is still the one at b. */
  predicate Clear(doc: Doc, a: nat, b: nat) {
    a <= b <= |doc| && forall i | a <= i < b :: doc[i].End? || doc[i].Text?
  }

  lemma ClearJoin(doc: Doc, a: nat, b: nat, c: nat)
    requires Clear(doc, a, b) && Clear(doc, b, c)
    ensures Clear(doc, a, c)
  {
  }

  lemma {:induction false} SkipFinds(doc: Doc, a: nat, b: nat)
    requires Clear(doc, a, b) && b < |doc| && doc[b].Start?
    ensures SkipToStart(doc, a) == b
    decreases b - a
  {
    if a < b {
      assert doc[a].End? || doc[a].Text?;
      SkipFinds(doc, a + 1, b);
    }
  }

  /** From inside a clear stretch the next tag is still inside it, or the tag that ends it. */
  lemma {:induction false} NextTagStays(doc: Doc, a: nat, b: nat)
    requires Clear(doc, a + 1, b) && a < b < |doc| && (doc[b].Start? || doc[b].End?)
    ensures a < NextTag(doc, a) <= b && Clear(doc, NextTag(doc, a), b)
    decreases b - a
  {
    if a + 1 < b && doc[a + 1].Text? {
      NextTagStays(doc, a + 1, b);
    }
  }

  lemma {:induction false} NextTagIs(doc: Doc, a: nat, b: nat)
    requires a < b < |doc| && AllText(doc, a + 1, b) && (doc[b].Start? || doc[b].End?)
    ensures NextTag(doc, a) == b
    decreases b - a
  {
    if a + 1 < b {
      NextTagIs(doc, a + 1, b);
    }
  }

  lemma {:induction false} FindNameFinds(doc: Doc, a: nat, b: nat, name: Tag)
    requires a <= b < |doc| && TokenName(doc[b]) == name
    requires forall i | a <= i < b :: !doc[i].EndDocument? && !doc[i].Invalid? && TokenName(doc[i]) != name
    ensures FindName(doc, a, name) == b
    decreases b - a
  {
    if a < b {
      assert TokenName(doc[a]) != name;
      FindNameFinds(doc, a + 1, b, name);
    }
  }

  /** The streaming reader: a document and a cursor. */
  class Reader {
    const doc: Doc
    var pos: nat

    constructor (doc: Doc)
      ensures this.doc == doc && pos == 0
    {
      this.doc := doc;
      pos := 0;
    }

    function Token(): Token reads this { TokenAt(doc, pos) }

    method ReadNext()
      modifies this
      ensures pos == Next(doc, old(pos))
    {
      if pos < |doc| { pos := pos + 1; }
    }

    method ReadNextStartElement()
      modifies this
      ensures pos == NextTag(doc, old(pos))
    {
      ReadNext();
      while !Token().Invalid? && !Token().Start? && !Token().End?
        invariant pos == Next(doc, old(pos)) || pos > old(pos)
        invariant NextTag(doc, old(pos)) ==
                  if Token().Invalid? || Token().Start? || Token().End? then pos else NextTag(doc, pos)
        decreases |doc| - pos
      {
        ReadNext();
      }
    }

    method SkipUntilStart()
      modifies this
      ensures pos == SkipToStart(doc, old(pos))
    {
      while !AtEnd(doc, pos) && !Token().Start?
        invariant SkipToStart(doc, pos) == SkipToStart(doc, old(pos))
        decreases |doc| - pos
      {
        ReadNext();
      }
    }

    method SkipUntilName(name: Tag)
      modifies this
      ensures pos == FindName(doc, old(pos), name)
    {
      while !AtEnd(doc, pos) && TokenName(Token()) != name
        invariant FindName(doc, pos, name) == FindName(doc, old(pos), name)
        decreases |doc| - pos
      {
        ReadNext();
      }
    }
  }

  /** The streaming writer. `blank` is the text it puts before a start tag, and before an end tag
      that follows another end tag: empty unless automatic formatting is on. */
  class Writer {
    const blank: seq<Token>
    var out: Doc
    var open: seq<Tag>

    ghost predicate Valid() reads this { Blank(blank) }

    /** The stream begins with the state of a reader that has read nothing yet. */
    constructor (blank: seq<Token>)
      requires Blank(blank)
      ensures this.blank == blank && out == [NoToken] && open == [] && Valid()
    {
      this.blank := blank;
      out, open := [NoToken], [];
    }

    method WriteStartDocument()
      modifies this
      ensures out == old(out) + [StartDocument] && open == old(open)
    {
      out := out + [StartDocument];
    }

    method WriteEndDocument()
      modifies this
      ensures out == old(out) + [EndDocument] && open == old(open)
    {
      out := out + [EndDocument];
    }

    method WriteStartElement(name: Tag)
      requires Valid()
      modifies this
      ensures old(out) <= out && |out| == |old(out)| + |blank| + 1
      ensures AllText(out, |old(out)|, |out| - 1) && out[|out| - 1] == Start(name, map[])
      ensures open == old(open) + [name]
    {
      out, open := out + blank + [Start(name, map[])], open + [name];
    }

    method WriteAttribute(key: Key, value: Attr)
      requires out != [] && out[|out| - 1].Start?
      modifies this
      ensures |out| == |old(out)| && out[..|out| - 1] == old(out)[..|out| - 1] && open == old(open)
      ensures out[|out| - 1] == WithAttr(old(out[|out| - 1]), key, value)
    {
      out := out[|out| - 1 := WithAttr(out[|out| - 1], key, value)];
    }

    method WriteCharacters(bytes: seq<U8>)
      modifies this
      ensures out == (if bytes == [] then old(out) else old(out) + [Text(bytes)]) && open == old(open)
    {
      if bytes != [] { out := out + [Text(bytes)]; }
    }

    method WriteEndElement()
      requires Valid() && out != [] && open != []
      modifies this
      ensures open == old(open)[..|old(open)| - 1]
      ensures old(out) < out
      ensures |out| == |old(out)| + 1 + if old(out)[|old(out)| - 1].End? then |blank| else 0
      ensures AllText(out, |old(out)|, |out| - 1) && out[|out| - 1] == End(old(open)[|old(open)| - 1])
    {
      var gap := if out[|out| - 1].End? then blank else [];
      out, open := out + gap + [End(open[|open| - 1])], open[..|open| - 1];
    }
  }

  function WithAttr(t: Token, key: Key, value: Attr): Token
    requires t.Start?
  {
    Start(t.tag, t.attrs[key := value])
  }
}
