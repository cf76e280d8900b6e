/**
 * The output buffer the generator writes Go source into (a bytes.Buffer), and
 * WriteTabs, which indents by appending tab characters to it.
 */
module Writer {

  /** A growable text buffer, written only by appending. */
  class Buffer {
    var contents: string

    constructor ()
      ensures contents == []
    {
      contents := [];
    }

    method WriteString(s: string)
      modifies this
      ensures contents == old(contents) + s
    {
      contents := contents + s;
    }

    method WriteByte(c: char)
      modifies this
      ensures contents == old(contents) + [c]
    {
      contents := contents + [c];
    }
  }

  /** The text WriteTabs appends: count tab characters, none when count <= 0. */
  function Tabs(count: int): (r: string)
    ensures |r| == if count <= 0 then 0 else count
    ensures forall i :: 0 <= i < |r| ==> r[i] == '\t'
    decreases count
  {
    if count <= 0 then [] else Tabs(count - 1) + ['\t']
  }

  /** WriteTabs appends count tab characters to buf. */
  method WriteTabs(buf: Buffer, count: int)
    modifies buf
    ensures buf.contents == old(buf.contents) + Tabs(count)
  {
    var i := 0;
    while i < count
      invariant count <= 0 ==> i == 0
      invariant count > 0 ==> 0 <= i <= count
      invariant buf.contents == old(buf.contents) + Tabs(i)
    {
      buf.WriteByte('\t');
      i := i + 1;
    }
  }
}
