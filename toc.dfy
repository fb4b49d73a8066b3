/**
 * The predata section of a backup as the printers see it: the text written
 * so far and the table-of-contents entries that describe it.
 */
module Toc {

  /** One table-of-contents entry: schema, referenced object (for statements owned by another object), name and object-type tag. */
  datatype TocEntry = TocEntry(schema: string, referenceObject: string, name: string, objectType: string)

  /** The output file together with its table of contents. */
  class PredataFile {
    var contents: string
    var entries: seq<TocEntry>

    constructor ()
      ensures contents == "" && entries == []
    {
      contents := "";
      entries := [];
    }

    /** Appends text to the file; the table of contents is untouched. */
    method Write(s: string)
      modifies this
      ensures contents == old(contents) + s
      ensures entries == old(entries)
    {
      contents := contents + s;
    }

    /** Records one table-of-contents entry; the text is untouched. */
    method AddEntry(e: TocEntry)
      modifies this
      ensures entries == old(entries) + [e]
      ensures contents == old(contents)
    {
      entries := entries + [e];
    }
  }

  /** The entries a printer records for a list of objects: one per object, in list order. */
  function EntriesFor<T>(xs: seq<T>, f: T -> TocEntry): (r: seq<TocEntry>)
    ensures |r| == |xs|
    ensures forall i :: 0 <= i < |xs| ==> r[i] == f(xs[i])
  {
    if xs == [] then [] else EntriesFor(xs[..|xs| - 1], f) + [f(xs[|xs| - 1])]
  }

  lemma EntriesForSnoc<T>(xs: seq<T>, x: T, f: T -> TocEntry)
    ensures EntriesFor(xs + [x], f) == EntriesFor(xs, f) + [f(x)]
  {
    assert (xs + [x])[..|xs|] == xs;
  }

  /** The text a printer writes for a list of objects: each object's text, in list order. */
  function TextsFor<T>(xs: seq<T>, f: T -> string): (r: string)
    ensures xs == [] ==> r == ""
  {
    if xs == [] then "" else TextsFor(xs[..|xs| - 1], f) + f(xs[|xs| - 1])
  }

  /**
   * The loop every object printer runs: for each object in list order, write
   * its text and record its table-of-contents entry.
   */
  method PrintEach<T>(file: PredataFile, xs: seq<T>, text: T -> string, entry: T -> TocEntry)
    modifies file
    ensures file.contents == old(file.contents) + TextsFor(xs, text)
    ensures file.entries == old(file.entries) + EntriesFor(xs, entry)
  {
    var i := 0;
    while i < |xs|
      invariant 0 <= i <= |xs|
      invariant file.contents == old(file.contents) + TextsFor(xs[..i], text)
      invariant file.entries == old(file.entries) + EntriesFor(xs[..i], entry)
    {
      file.Write(text(xs[i]));
      file.AddEntry(entry(xs[i]));
      assert old(file.contents) + (TextsFor(xs[..i], text) + text(xs[i])) == old(file.contents) + TextsFor(xs[..i], text) + text(xs[i]);
      assert xs[..i + 1][..i] == xs[..i];
      i := i + 1;
    }
    assert xs[..i] == xs;
  }

  /** The loop of a printer that records no table-of-contents entry: write each object's text, in list order. */
  method WriteEach<T>(file: PredataFile, xs: seq<T>, text: T -> string)
    modifies file
    ensures file.contents == old(file.contents) + TextsFor(xs, text)
    ensures file.entries == old(file.entries)
  {
    var i := 0;
    while i < |xs|
      invariant 0 <= i <= |xs|
      invariant file.contents == old(file.contents) + TextsFor(xs[..i], text)
      invariant file.entries == old(file.entries)
    {
      file.Write(text(xs[i]));
      assert old(file.contents) + (TextsFor(xs[..i], text) + text(xs[i])) == old(file.contents) + TextsFor(xs[..i], text) + text(xs[i]);
      assert xs[..i + 1][..i] == xs[..i];
      i := i + 1;
    }
    assert xs[..i] == xs;
  }
}
