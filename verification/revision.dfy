/** The byte stream behind a graph response's revision: which documents it tells apart. */
module Revision {
  import opened Options

  datatype DocumentRow = DocumentRow(path: string, title: Option<string>, layer: string, mtime: string, active: bool)

  /** What one document contributes; the layer name, the printed mtime and the body digest
      are texts the engine itself produces. */
  datatype Entry = Entry(path: string, title: string, layer: string, mtime: string, body: string, active: bool)

  const BODY_HASH_MISSING := "missing"

  function EntryOf(d: DocumentRow, hashes: map<string, string>): Entry {
    var title := if d.title.Some? then d.title.value else "";
    var body := if d.path in hashes then hashes[d.path] else BODY_HASH_MISSING;
    Entry(d.path, title, d.layer, d.mtime, body, d.active)
  }

  function EntriesOf(docs: seq<DocumentRow>, hashes: map<string, string>): seq<Entry> {
    if docs == [] then [] else [EntryOf(docs[0], hashes)] + EntriesOf(docs[1..], hashes)
  }

  function Field(text: string, rest: string): string { text + "|" + rest }

  function Flag(active: bool): string { if active then "1" else "0" }

  /** One entry's bytes, followed by the rest of the stream. */
  function Line(e: Entry, rest: string): string {
    Field(e.path, Field(e.title, Field(e.layer, Field(e.mtime, Field(e.body, Flag(e.active) + "\n" + rest)))))
  }

  function Stream(es: seq<Entry>): string { if es == [] then "" else Line(es[0], Stream(es[1..])) }

  class Digest {
    var fed: string

    constructor ()
      ensures fed == ""
    {
      fed := "";
    }

    method Update(text: string)
      modifies this
      ensures fed == old(fed) + text
    {
      fed := fed + text;
    }

    method UpdateField(text: string, ghost tail: string)
      modifies this
      ensures fed + tail == old(fed) + Field(text, tail)
    {
      Update(text);
      Update("|");
      assert fed + tail == old(fed) + (text + "|" + tail);
    }

    method UpdateWithDocument(d: DocumentRow, hashes: map<string, string>)
      modifies this
      ensures fed == old(fed) + Line(EntryOf(d, hashes), "")
    {
      ghost var e := EntryOf(d, hashes);
      ghost var l5 := Flag(e.active) + "\n" + "";
      ghost var l4 := Field(e.body, l5);
      ghost var l3 := Field(e.mtime, l4);
      ghost var l2 := Field(e.layer, l3);
      UpdateField(d.path, Field(e.title, l2));
      UpdateField(if d.title.Some? then d.title.value else "", l2);
      UpdateField(d.layer, l3);
      UpdateField(d.mtime, l4);
      UpdateField(if d.path in hashes then hashes[d.path] else BODY_HASH_MISSING, l5);
      ghost var before := fed;
      Update(if d.active then "1" else "0");
      Update("\n");
      assert fed == before + l5;
    }
  }

  /** The digest is fed exactly the stream of the documents' entries. */
  method FeedBaseRevision(docs: seq<DocumentRow>, hashes: map<string, string>) returns (h: Digest)
    ensures fresh(h) && h.fed == Stream(EntriesOf(docs, hashes))
  {
    h := new Digest();
    assert docs[0..] == docs;
    for i := 0 to |docs|
      invariant fresh(h)
      invariant h.fed + StreamFrom(docs, hashes, i) == Stream(EntriesOf(docs, hashes))
    {
      StreamSplits(docs, hashes, i);
      h.UpdateWithDocument(docs[i], hashes);
    }
  }

  ghost function StreamFrom(docs: seq<DocumentRow>, hashes: map<string, string>, i: nat): string
    requires i <= |docs|
  {
    Stream(EntriesOf(docs[i..], hashes))
  }

  lemma StreamSplits(docs: seq<DocumentRow>, hashes: map<string, string>, i: nat)
    requires i < |docs|
    ensures forall fed: string ::
              fed + StreamFrom(docs, hashes, i) ==
                (fed + Line(EntryOf(docs[i], hashes), "")) + StreamFrom(docs, hashes, i + 1)
  {
    var e := EntryOf(docs[i], hashes);
    var rest := StreamFrom(docs, hashes, i + 1);
    assert docs[i..][1..] == docs[i + 1..];
    var es := EntriesOf(docs[i..], hashes);
    assert es[0] == e && es[1..] == EntriesOf(docs[i + 1..], hashes);
    LineSplits(e, rest);
    forall fed: string ensures fed + (Line(e, "") + rest) == (fed + Line(e, "")) + rest {
    }
  }

  lemma LineSplits(e: Entry, rest: string)
    ensures Line(e, rest) == Line(e, "") + rest
  {
    var tail := Flag(e.active) + "\n";
    FieldSplits(e.body, tail, rest);
    FieldSplits(e.mtime, Field(e.body, tail), rest);
    FieldSplits(e.layer, Field(e.mtime, Field(e.body, tail)), rest);
    FieldSplits(e.title, Field(e.layer, Field(e.mtime, Field(e.body, tail))), rest);
    FieldSplits(e.path, Field(e.title, Field(e.layer, Field(e.mtime, Field(e.body, tail)))), rest);
    assert tail + "" == tail;
  }

  lemma FieldSplits(text: string, tail: string, rest: string)
    ensures Field(text, tail + rest) == Field(text, tail) + rest
  {
  }

  // ------------------------------------------------------------------
  // Reading a stream back.

  function TakeField(s: string): Option<(string, string)> {
    if s == "" then None
    else if s[0] == '|' then Some(("", s[1..]))
    else
      match TakeField(s[1..])
      case None => None
      case Some(f) => Some(([s[0]] + f.0, f.1))
  }

  lemma {:induction false} TakeFieldShortens(s: string)
    ensures TakeField(s).Some? ==> |TakeField(s).value.1| < |s|
  {
    if s != "" && s[0] != '|' { TakeFieldShortens(s[1..]); }
  }

  lemma {:induction false} TakeFieldInverts(text: string, rest: string)
    requires '|' !in text
    ensures TakeField(Field(text, rest)) == Some((text, rest))
  {
    if text == "" {
      assert Field(text, rest)[1..] == rest;
    } else {
      TakeFieldInverts(text[1..], rest);
      assert Field(text, rest)[1..] == Field(text[1..], rest);
      assert text == [text[0]] + text[1..];
    }
  }

  /** `k` fields and what follows them. */
  function TakeFields(s: string, k: nat): Option<(seq<string>, string)>
    decreases k
  {
    if k == 0 then Some(([], s))
    else
      match TakeField(s)
      case None => None
      case Some(f) =>
        match TakeFields(f.1, k - 1)
        case None => None
        case Some(g) => Some(([f.0] + g.0, g.1))
  }

  lemma {:induction false} TakeFieldsLength(s: string, k: nat)
    ensures TakeFields(s, k).Some? ==> |TakeFields(s, k).value.0| == k && |TakeFields(s, k).value.1| + k <= |s|
    decreases k
  {
    if k > 0 && TakeField(s).Some? {
      TakeFieldShortens(s);
      TakeFieldsLength(TakeField(s).value.1, k - 1);
    }
  }

  function Decode(s: string): Option<seq<Entry>>
    decreases |s|
  {
    if s == "" then Some([])
    else
      TakeFieldsLength(s, 5);
      match TakeFields(s, 5)
      case None => None
      case Some(g) =>
        if |g.1| < 2 then None
        else
          match Decode(g.1[2..])
          case None => None
          case Some(es) => Some([Entry(g.0[0], g.0[1], g.0[2], g.0[3], g.0[4], g.1[0] == '1')] + es)
  }

  ghost predicate BarFree(e: Entry) { '|' !in e.path && '|' !in e.title && EngineTextsBarFree(e) }

  /** Layer names, printed numbers and hexadecimal digests hold no bar. */
  ghost predicate EngineTextsBarFree(e: Entry) { '|' !in e.layer && '|' !in e.mtime && '|' !in e.body }

  lemma FieldReadsBack(text: string, rest: string, k: nat, texts: seq<string>, end: string)
    requires '|' !in text && TakeFields(rest, k) == Some((texts, end))
    ensures TakeFields(Field(text, rest), k + 1) == Some(([text] + texts, end))
  {
    TakeFieldInverts(text, rest);
  }

  lemma LineReadsBack(e: Entry, rest: string)
    requires BarFree(e)
    ensures TakeFields(Line(e, rest), 5) ==
            Some(([e.path, e.title, e.layer, e.mtime, e.body], Flag(e.active) + "\n" + rest))
  {
    var end := Flag(e.active) + "\n" + rest;
    var l4 := Field(e.body, end);
    var l3 := Field(e.mtime, l4);
    var l2 := Field(e.layer, l3);
    assert [e.body] + [] == [e.body] && [e.mtime] + [e.body] == [e.mtime, e.body];
    assert [e.layer] + [e.mtime, e.body] == [e.layer, e.mtime, e.body];
    assert [e.title] + [e.layer, e.mtime, e.body] == [e.title, e.layer, e.mtime, e.body];
    assert [e.path] + [e.title, e.layer, e.mtime, e.body] == [e.path, e.title, e.layer, e.mtime, e.body];
    FieldReadsBack(e.body, end, 0, [], end);
    FieldReadsBack(e.mtime, l4, 1, [e.body], end);
    FieldReadsBack(e.layer, l3, 2, [e.mtime, e.body], end);
    FieldReadsBack(e.title, l2, 3, [e.layer, e.mtime, e.body], end);
    FieldReadsBack(e.path, Field(e.title, l2), 4, [e.title, e.layer, e.mtime, e.body], end);
  }

  /** With no bar in any path or title the stream reads back to its entries; a line break
      in a title does no harm. */
  lemma {:induction false} StreamReadsBack(es: seq<Entry>)
    requires forall e :: e in es ==> BarFree(e)
    ensures Decode(Stream(es)) == Some(es)
  {
    if es != [] {
      assert es[0] in es;
      LineReadsBack(es[0], Stream(es[1..]));
      StreamReadsBack(es[1..]);
      var end := Flag(es[0].active) + "\n" + Stream(es[1..]);
      assert end[2..] == Stream(es[1..]);
      assert es == [es[0]] + es[1..];
    }
  }

  lemma StreamsTellEntriesApart(es: seq<Entry>, fs: seq<Entry>)
    requires forall e :: e in es ==> BarFree(e)
    requires forall f :: f in fs ==> BarFree(f)
    ensures Stream(es) == Stream(fs) <==> es == fs
  {
    StreamReadsBack(es);
    StreamReadsBack(fs);
  }

  /** Every entry with a bar in its path or title shares its bytes with another entry, so
      bar-free texts are exactly what the revision needs. */
  lemma BarsCollide(e: Entry) returns (twin: Entry)
    requires '|' in e.path || '|' in e.title
    ensures twin != e && Stream([twin]) == Stream([e])
    ensures (twin.layer, twin.mtime, twin.body, twin.active) == (e.layer, e.mtime, e.body, e.active)
  {
    if '|' in e.path {
      var i :| 0 <= i < |e.path| && e.path[i] == '|';
      twin := e.(path := e.path[..i], title := e.path[i + 1..] + "|" + e.title);
      assert e.path == e.path[..i] + "|" + e.path[i + 1..];
      SharedBytes(e.path[..i], e.path[i + 1..], e.title,
        Field(e.layer, Field(e.mtime, Field(e.body, Flag(e.active) + "\n"))));
      assert |twin.path| < |e.path|;
    } else {
      var i :| 0 <= i < |e.title| && e.title[i] == '|';
      twin := e.(path := e.path + "|" + e.title[..i], title := e.title[i + 1..]);
      assert e.title == e.title[..i] + "|" + e.title[i + 1..];
      SharedBytes(e.path, e.title[..i], e.title[i + 1..],
        Field(e.layer, Field(e.mtime, Field(e.body, Flag(e.active) + "\n"))));
      assert |twin.path| > |e.path|;
    }
    assert [e][1..] == [] && [twin][1..] == [];
    assert Flag(e.active) + "\n" + "" == Flag(e.active) + "\n";
  }

  lemma SharedBytes(a: string, b: string, c: string, rest: string)
    ensures Field(a + "|" + b, Field(c, rest)) == Field(a, Field(b + "|" + c, rest))
  {
    assert Field(a + "|" + b, Field(c, rest)) == a + "|" + b + "|" + c + "|" + rest;
    assert Field(a, Field(b + "|" + c, rest)) == a + "|" + b + "|" + c + "|" + rest;
  }

  /** Two responses get one stream exactly when they agree document by document on all that
      is hashed, an absent title counting as an empty one. */
  lemma SameRevisionIff(docs: seq<DocumentRow>, hashes: map<string, string>, others: seq<DocumentRow>,
      theirs: map<string, string>)
    requires forall e :: e in EntriesOf(docs, hashes) ==> BarFree(e)
    requires forall e :: e in EntriesOf(others, theirs) ==> BarFree(e)
    ensures Stream(EntriesOf(docs, hashes)) == Stream(EntriesOf(others, theirs)) <==>
            |docs| == |others| && forall i :: 0 <= i < |docs| ==> SameDocument(docs[i], hashes, others[i], theirs)
  {
    StreamsTellEntriesApart(EntriesOf(docs, hashes), EntriesOf(others, theirs));
    EntriesPointwise(docs, hashes);
    EntriesPointwise(others, theirs);
    forall d: DocumentRow, o: DocumentRow
      ensures EntryOf(d, hashes) == EntryOf(o, theirs) <==> SameDocument(d, hashes, o, theirs)
    {
      SameEntryIff(d, hashes, o, theirs);
    }
  }

  /** The rows agree in path, layer, mtime and activity, in their titles, no title being the
      empty one, and in the digests of their bodies, a missing one being the word for it. */
  ghost predicate SameDocument(d: DocumentRow, hashes: map<string, string>, o: DocumentRow,
      theirs: map<string, string>)
  {
    && d.path == o.path && d.layer == o.layer && d.mtime == o.mtime && d.active == o.active
    && (d.title == o.title || {d.title, o.title} == {None, Some("")})
    && (if d.path in hashes then hashes[d.path] else "missing") ==
       (if o.path in theirs then theirs[o.path] else "missing")
  }

  lemma SameEntryIff(d: DocumentRow, hashes: map<string, string>, o: DocumentRow, theirs: map<string, string>)
    ensures EntryOf(d, hashes) == EntryOf(o, theirs) <==> SameDocument(d, hashes, o, theirs)
  {
    if d.title != o.title {
      assert None in {d.title, o.title} <==> d.title.None? || o.title.None?;
      if EntryOf(d, hashes).title == EntryOf(o, theirs).title { assert {d.title, o.title} == {None, Some("")}; }
    }
  }

  lemma {:induction false} EntriesPointwise(docs: seq<DocumentRow>, hashes: map<string, string>)
    ensures |EntriesOf(docs, hashes)| == |docs|
    ensures forall i :: 0 <= i < |docs| ==> EntriesOf(docs, hashes)[i] == EntryOf(docs[i], hashes)
  {
    if docs != [] { EntriesPointwise(docs[1..], hashes); }
  }
}
