/**
 The form editor of the config TUI. The code keeps byte offsets into UTF-8 strings; the reference
 is a list of character sequences with a focused field and a column. The class carries the
 reference state as a ghost field and every method is proved to act on it.
*/
module Editor {
  import opened Common
  import opened Utf8

  // ---- Reference: editing characters ------------------------------------------------------

  /** The focused field is split at `col` into what is left and right of the cursor. */
  datatype Zipper = Zipper(fields: seq<seq<scalar>>, focus: nat, col: nat)

  predicate ZipperOk(z: Zipper) {
    if z.fields == [] then z.focus == 0 && z.col == 0
    else z.focus < |z.fields| && z.col <= |z.fields[z.focus]|
  }

  datatype Key = Insert(c: scalar) | Backspace | Delete | Left | Right | Home | End | FocusNext | FocusPrev

  /** The texts the three edits leave in the focused field. */
  function Inserted(t: seq<scalar>, col: nat, c: scalar): seq<scalar>
    requires col <= |t|
  {
    t[..col] + [c] + t[col..]
  }

  function Removed(t: seq<scalar>, col: nat): seq<scalar>
    requires col < |t|
  {
    t[..col] + t[col + 1..]
  }

  function Edit(z: Zipper, text: seq<scalar>, col: nat): Zipper
    requires z.focus < |z.fields|
  {
    z.(fields := z.fields[z.focus := text], col := col)
  }

  function Press(z: Zipper, key: Key): (r: Zipper)
    requires ZipperOk(z)
    ensures ZipperOk(r) && |r.fields| == |z.fields|
  {
    if z.fields == [] then z
    else
      var t := z.fields[z.focus];
      var n := |z.fields|;
      match key
      case Insert(c) => Edit(z, Inserted(t, z.col, c), z.col + 1)
      case Backspace => if z.col == 0 then z else Edit(z, Removed(t, z.col - 1), z.col - 1)
      case Delete => if z.col == |t| then z else Edit(z, Removed(t, z.col), z.col)
      case Left => if z.col == 0 then z else z.(col := z.col - 1)
      case Right => if z.col == |t| then z else z.(col := z.col + 1)
      case Home => z.(col := 0)
      case End => z.(col := |t|)
      case FocusNext =>
        var f := (z.focus + 1) % n;
        Zipper(z.fields, f, |z.fields[f]|)
      case FocusPrev =>
        var f := (z.focus + n - 1) % n;
        Zipper(z.fields, f, |z.fields[f]|)
  }

  function PressAll(z: Zipper, keys: seq<Key>): (r: Zipper)
    requires ZipperOk(z)
    ensures ZipperOk(r) && |r.fields| == |z.fields|
    decreases |keys|
  {
    if keys == [] then z else Press(PressAll(z, keys[..|keys| - 1]), keys[|keys| - 1])
  }

  /** Typing a character and erasing it again restores the form; so does moving right and left. */
  lemma InsertBackspace(z: Zipper, c: scalar)
    requires ZipperOk(z)
    ensures Press(Press(z, Insert(c)), Backspace) == z
    ensures z.fields != [] && z.col < |z.fields[z.focus]| ==> Press(Press(z, Right), Left) == z
  {
    if z.fields != [] {
      var t := z.fields[z.focus];
      var u := t[..z.col] + [c] + t[z.col..];
      assert u[..z.col] + u[z.col + 1..] == t;
      assert z.fields[z.focus := u][z.focus := t] == z.fields;
    }
  }

  /** Backspace is moving left and deleting forward. */
  lemma BackspaceIsLeftDelete(z: Zipper)
    requires ZipperOk(z) && z.col > 0
    ensures Press(z, Backspace) == Press(Press(z, Left), Delete)
  {
  }

  // ---- Byte strings -----------------------------------------------------------------------

  /** Rust's `is_char_boundary`; slicing elsewhere panics. */
  predicate IsBoundary(b: seq<byte>, pos: nat) {
    pos <= |b| && (pos < |b| ==> !IsCont(b[pos]))
  }

  /** `s[..pos].char_indices().next_back()`: start of the last character before `pos`. */
  method PrevBoundary(b: seq<byte>, pos: nat) returns (i: nat)
    requires IsBoundary(b, pos)
    ensures if pos == 0 then i == 0 else LastStart(b, pos, i)
  {
    if pos == 0 {
      return 0;
    }
    i := pos - 1;
    while i > 0 && IsCont(b[i])
      invariant i < pos
      invariant forall k :: i < k < pos ==> IsCont(b[k])
    {
      i := i - 1;
    }
  }

  /** `s[pos..].char_indices().nth(1)`: start of the next character, or the end. */
  method NextBoundary(b: seq<byte>, pos: nat) returns (i: nat)
    requires IsBoundary(b, pos) && pos < |b|
    ensures i == if pos + LeadLen(b[pos]) < |b| then pos + LeadLen(b[pos]) else |b|
  {
    i := pos + LeadLen(b[pos]);
    if i >= |b| {
      i := |b|;
    }
  }

  /** `String::insert`. */
  function InsertAt(b: seq<byte>, pos: nat, c: scalar): seq<byte>
    requires IsBoundary(b, pos)
  {
    b[..pos] + Encode(c) + b[pos..]
  }

  /** `String::remove`. */
  function RemoveAt(b: seq<byte>, pos: nat): seq<byte>
    requires IsBoundary(b, pos) && pos < |b| && pos + LeadLen(b[pos]) <= |b|
  {
    b[..pos] + b[pos + LeadLen(b[pos])..]
  }

  /** One character of `b`, from byte `p` to byte `q`. */
  predicate CharBytes(b: seq<byte>, p: nat, q: nat) {
    && p < q <= |b| && !IsCont(b[p]) && q == p + LeadLen(b[p])
    && forall k :: p < k < q ==> IsCont(b[k])
  }

  lemma Middle(a: seq<byte>, c: scalar, r: seq<byte>)
    ensures CharBytes(a + Encode(c) + r, |a|, |a| + |Encode(c)|)
  {
    EncodeShape(c);
    var b := a + Encode(c) + r;
    forall k | |a| < k < |a| + |Encode(c)| ensures IsCont(b[k]) {
      assert b[k] == Encode(c)[k - |a|];
    }
  }

  /** The character at a column, as bytes. */
  lemma CharAt(t: seq<scalar>, col: nat)
    requires col < |t|
    ensures CharBytes(EncodeAll(t), Offset(t, col), Offset(t, col + 1))
  {
    CharSplit(t, col);
    Middle(EncodeAll(t[..col]), t[col], EncodeAll(t[col + 1..]));
  }

  lemma BoundaryAt(t: seq<scalar>, col: nat)
    requires col <= |t|
    ensures IsBoundary(EncodeAll(t), Offset(t, col))
    ensures Offset(t, col) < |EncodeAll(t)| <==> col < |t|
  {
    SplitAt(t, col);
    if col < |t| {
      CharAt(t, col);
    }
  }

  lemma InsertBytes(t: seq<scalar>, col: nat, c: scalar)
    requires col <= |t| && IsBoundary(EncodeAll(t), Offset(t, col))
    ensures var u := Inserted(t, col, c);
      && InsertAt(EncodeAll(t), Offset(t, col), c) == EncodeAll(u)
      && Offset(u, col + 1) == Offset(t, col) + |Encode(c)|
  {
    var u := Inserted(t, col, c);
    SplitAt(t, col);
    EncodeThree(t[..col], c, t[col..]);
    assert u[..col + 1] == t[..col] + [c];
  }

  lemma Cut(a: seq<byte>, c: scalar, r: seq<byte>)
    ensures var b := a + Encode(c) + r;
      IsBoundary(b, |a|) && |a| < |b| && |a| + LeadLen(b[|a|]) <= |b| && RemoveAt(b, |a|) == a + r
  {
    Middle(a, c, r);
  }

  lemma RemoveBytes(t: seq<scalar>, col: nat)
    requires col < |t|
    ensures var b, p := EncodeAll(t), Offset(t, col);
      && IsBoundary(b, p) && p < |b| && p + LeadLen(b[p]) <= |b|
      && RemoveAt(b, p) == EncodeAll(Removed(t, col))
    ensures Offset(Removed(t, col), col) == Offset(t, col)
  {
    CharSplit(t, col);
    Cut(EncodeAll(t[..col]), t[col], EncodeAll(t[col + 1..]));
    EncodeAppend(t[..col], t[col + 1..]);
    assert Removed(t, col)[..col] == t[..col];
  }

  /** What the backwards scan finds. */
  predicate LastStart(b: seq<byte>, pos: nat, i: nat)
    requires pos <= |b|
  {
    && i < pos && (i == 0 || !IsCont(b[i]))
    && forall k :: i < k < pos ==> IsCont(b[k])
  }

  /** The scan backwards finds the start of the character that ends there. */
  lemma LastStartIsUnique(b: seq<byte>, p: nat, q: nat, i: nat)
    requires CharBytes(b, p, q) && LastStart(b, q, i)
    ensures i == p
  {
    if i < p {
      assert false;
    }
  }

  lemma OffsetPositive(t: seq<scalar>, col: nat)
    requires col <= |t|
    ensures Offset(t, col) > 0 <==> col > 0
  {
    if col > 0 {
      CharAt(t, col - 1);
    }
  }

  // ---- The relation between the two -------------------------------------------------------

  predicate Encodes(inputs: seq<seq<byte>>, fields: seq<seq<scalar>>) {
    |inputs| == |fields| && forall i :: 0 <= i < |inputs| ==> inputs[i] == EncodeAll(fields[i])
  }

  predicate Represents(inputs: seq<seq<byte>>, focus: nat, cursorPos: nat, z: Zipper) {
    && ZipperOk(z) && focus == z.focus && Encodes(inputs, z.fields)
    && cursorPos == (if z.fields == [] then 0 else Offset(z.fields[focus], z.col))
  }

  /** The cursor is a character boundary inside the focused input: no slice can panic. */
  lemma CursorIsBoundary(inputs: seq<seq<byte>>, focus: nat, cursorPos: nat, z: Zipper)
    requires Represents(inputs, focus, cursorPos, z) && inputs != []
    ensures focus < |inputs| && IsBoundary(inputs[focus], cursorPos)
    ensures cursorPos < |inputs[focus]| <==> z.col < |z.fields[focus]|
    ensures cursorPos > 0 <==> z.col > 0
  {
    BoundaryAt(z.fields[focus], z.col);
    OffsetPositive(z.fields[focus], z.col);
  }

  /** Replacing the focused input by the encoding of a new text. */
  lemma EditKeeps(inputs: seq<seq<byte>>, z: Zipper, b: seq<byte>, t: seq<scalar>, col: nat)
    requires Encodes(inputs, z.fields) && z.focus < |inputs| && b == EncodeAll(t) && col <= |t|
    ensures Represents(inputs[z.focus := b], z.focus, Offset(t, col), Edit(z, t, col))
  {
    var after, fields := inputs[z.focus := b], z.fields[z.focus := t];
    assert Encodes(after, fields) by {
      forall i | 0 <= i < |after| ensures after[i] == EncodeAll(fields[i]) {
        assert i != z.focus ==> after[i] == inputs[i] && fields[i] == z.fields[i];
      }
    }
  }

  lemma InsertKeeps(inputs: seq<seq<byte>>, focus: nat, cursorPos: nat, z: Zipper, c: scalar)
    requires Represents(inputs, focus, cursorPos, z) && inputs != []
    ensures focus < |inputs| && IsBoundary(inputs[focus], cursorPos)
    ensures var b := InsertAt(inputs[focus], cursorPos, c);
      Represents(inputs[focus := b], focus, cursorPos + |Encode(c)|, Press(z, Insert(c)))
  {
    CursorIsBoundary(inputs, focus, cursorPos, z);
    InsertBytes(z.fields[focus], z.col, c);
    EditKeeps(inputs, z, InsertAt(inputs[focus], cursorPos, c), Inserted(z.fields[focus], z.col, c), z.col + 1);
  }

  lemma RemoveKeeps(inputs: seq<seq<byte>>, z: Zipper, col: nat)
    requires Encodes(inputs, z.fields) && z.focus < |inputs| && col < |z.fields[z.focus]|
    ensures var b, p, t := inputs[z.focus], Offset(z.fields[z.focus], col), z.fields[z.focus];
      && IsBoundary(b, p) && p < |b| && p + LeadLen(b[p]) <= |b|
      && Represents(inputs[z.focus := RemoveAt(b, p)], z.focus, p, Edit(z, Removed(t, col), col))
  {
    var t := z.fields[z.focus];
    RemoveBytes(t, col);
    EditKeeps(inputs, z, RemoveAt(inputs[z.focus], Offset(t, col)), Removed(t, col), col);
  }

  /** The scan backwards, the removal and the new cursor are the reference's backspace. */
  lemma BackspaceKeeps(inputs: seq<seq<byte>>, focus: nat, cursorPos: nat, z: Zipper, prev: nat)
    requires Represents(inputs, focus, cursorPos, z) && inputs != [] && z.col > 0
    requires cursorPos <= |inputs[focus]| && LastStart(inputs[focus], cursorPos, prev)
    ensures var b := inputs[focus];
      && IsBoundary(b, prev) && prev < |b| && prev + LeadLen(b[prev]) <= |b|
      && Represents(inputs[focus := RemoveAt(b, prev)], focus, prev, Press(z, Backspace))
  {
    var t := z.fields[focus];
    CharAt(t, z.col - 1);
    LastStartIsUnique(inputs[focus], Offset(t, z.col - 1), cursorPos, prev);
    RemoveKeeps(inputs, z, z.col - 1);
  }

  lemma FocusMoves(inputs: seq<seq<byte>>, focus: nat, cursorPos: nat, z: Zipper, f: nat, key: Key)
    requires Represents(inputs, focus, cursorPos, z) && inputs != []
    requires (key == FocusNext && f == (focus + 1) % |inputs|) || (key == FocusPrev && f == (focus + |inputs| - 1) % |inputs|)
    ensures f < |inputs| && Represents(inputs, f, |inputs[f]|, Press(z, key))
  {
    FocusKeeps(inputs, z.fields, f);
  }

  lemma FocusKeeps(inputs: seq<seq<byte>>, fields: seq<seq<scalar>>, f: nat)
    requires Encodes(inputs, fields) && f < |inputs|
    ensures Represents(inputs, f, |inputs[f]|, Zipper(fields, f, |fields[f]|))
  {
    SplitAt(fields[f], |fields[f]|);
  }

  /** `String::insert` on the focused input, and the cursor after it. */
  method InsertInto(inputs: seq<seq<byte>>, focus: nat, pos: nat, c: scalar, ghost z: Zipper)
      returns (after: seq<seq<byte>>, cursor: nat)
    requires Represents(inputs, focus, pos, z) && inputs != []
    ensures Represents(after, focus, cursor, Press(z, Insert(c)))
  {
    InsertKeeps(inputs, focus, pos, z, c);
    after := inputs[focus := InsertAt(inputs[focus], pos, c)];
    cursor := pos + |Encode(c)|;
  }

  // ---- The code ---------------------------------------------------------------------------

  class App {
    var inputs: seq<seq<byte>>
    var focus: nat
    var cursorPos: nat
    ghost var zipper: Zipper

    ghost predicate Valid()
      reads this
    {
      Represents(inputs, focus, cursorPos, zipper)
    }

    constructor ()
      ensures Valid() && zipper == Zipper([], 0, 0)
    {
      inputs, focus, cursorPos := [], 0, 0;
      zipper := Zipper([], 0, 0);
    }

    /** Entering a form: focus on the first field, cursor at its end. */
    method Open(fields: seq<seq<byte>>, ghost texts: seq<seq<scalar>>)
      requires fields != [] && Encodes(fields, texts)
      modifies this
      ensures Valid() && inputs == fields && zipper == Zipper(texts, 0, |texts[0]|)
    {
      inputs, focus, cursorPos := fields, 0, |fields[0]|;
      zipper := Zipper(texts, 0, |texts[0]|);
      FocusKeeps(fields, texts, 0);
    }

    method FocusOnNext()
      requires Valid()
      modifies this
      ensures Valid() && zipper == Press(old(zipper), FocusNext) && inputs == old(inputs)
    {
      var count := |inputs|;
      if count == 0 {
        return;
      }
      FocusMoves(inputs, focus, cursorPos, zipper, (focus + 1) % count, FocusNext);
      focus := (focus + 1) % count;
      cursorPos := |inputs[focus]|;
      zipper := Press(zipper, FocusNext);
    }

    method FocusOnPrev()
      requires Valid()
      modifies this
      ensures Valid() && zipper == Press(old(zipper), FocusPrev) && inputs == old(inputs)
    {
      var count := |inputs|;
      if count == 0 {
        return;
      }
      FocusMoves(inputs, focus, cursorPos, zipper, (focus + count - 1) % count, FocusPrev);
      focus := (focus + count - 1) % count;
      cursorPos := |inputs[focus]|;
      zipper := Press(zipper, FocusPrev);
    }

    method InputChar(c: scalar)
      requires Valid()
      modifies this
      ensures Valid() && zipper == Press(old(zipper), Insert(c))
    {
      if focus < |inputs| {
        CursorIsBoundary(inputs, focus, cursorPos, zipper);
        var pos := if cursorPos < |inputs[focus]| then cursorPos else |inputs[focus]|;
        inputs, cursorPos := InsertInto(inputs, focus, pos, c, zipper);
        zipper := Press(zipper, Insert(c));
      }
    }

    method InputBackspace()
      requires Valid()
      modifies this
      ensures Valid() && zipper == Press(old(zipper), Backspace)
    {
      if inputs != [] {
        CursorIsBoundary(inputs, focus, cursorPos, zipper);
      }
      if focus < |inputs| && cursorPos > 0 {
        var input := inputs[focus];
        var pos := if cursorPos < |input| then cursorPos else |input|;
        if pos > 0 {
          var prev := PrevBoundary(input, pos);
          BackspaceKeeps(inputs, focus, cursorPos, zipper, prev);
          inputs := inputs[focus := RemoveAt(input, prev)];
          cursorPos := prev;
          zipper := Press(zipper, Backspace);
        }
      }
    }

    method InputDelete()
      requires Valid()
      modifies this
      ensures Valid() && zipper == Press(old(zipper), Delete) && cursorPos == old(cursorPos)
    {
      if focus < |inputs| {
        CursorIsBoundary(inputs, focus, cursorPos, zipper);
        var input := inputs[focus];
        var pos := if cursorPos < |input| then cursorPos else |input|;
        if pos < |input| {
          RemoveKeeps(inputs, zipper, zipper.col);
          inputs := inputs[focus := RemoveAt(input, pos)];
          zipper := Press(zipper, Delete);
        }
      }
    }

    method CursorLeft()
      requires Valid()
      modifies this`cursorPos, this`zipper
      ensures Valid() && zipper == Press(old(zipper), Left)
    {
      if inputs != [] {
        CursorIsBoundary(inputs, focus, cursorPos, zipper);
      }
      if cursorPos > 0 {
        var prev := PrevBoundary(inputs[focus], cursorPos);
        CharAt(zipper.fields[focus], zipper.col - 1);
        LastStartIsUnique(inputs[focus], Offset(zipper.fields[focus], zipper.col - 1), cursorPos, prev);
        cursorPos := prev;
        zipper := Press(zipper, Left);
      }
    }

    method CursorRight()
      requires Valid()
      modifies this`cursorPos, this`zipper
      ensures Valid() && zipper == Press(old(zipper), Right)
    {
      if focus < |inputs| {
        CursorIsBoundary(inputs, focus, cursorPos, zipper);
        if cursorPos < |inputs[focus]| {
          CharAt(zipper.fields[focus], zipper.col);
          cursorPos := NextBoundary(inputs[focus], cursorPos);
          zipper := Press(zipper, Right);
        }
      }
    }

    method CursorHome()
      requires Valid()
      modifies this`cursorPos, this`zipper
      ensures Valid() && zipper == Press(old(zipper), Home)
    {
      cursorPos := 0;
      zipper := Press(zipper, Home);
    }

    method CursorEnd()
      requires Valid()
      modifies this`cursorPos, this`zipper
      ensures Valid() && zipper == Press(old(zipper), End)
    {
      if focus < |inputs| {
        cursorPos := |inputs[focus]|;
        FocusKeeps(inputs, zipper.fields, focus);
        zipper := Press(zipper, End);
      }
    }

    method Handle(key: Key)
      requires Valid()
      modifies this
      ensures Valid() && zipper == Press(old(zipper), key)
    {
      match key
      case Insert(c) => InputChar(c);
      case Backspace => InputBackspace();
      case Delete => InputDelete();
      case Left => CursorLeft();
      case Right => CursorRight();
      case Home => CursorHome();
      case End => CursorEnd();
      case FocusNext => FocusOnNext();
      case FocusPrev => FocusOnPrev();
    }

    /** Any sequence of keys: the byte editor refines the character editor. */
    method HandleAll(keys: seq<Key>)
      requires Valid()
      modifies this
      ensures Valid() && zipper == PressAll(old(zipper), keys)
    {
      ghost var z0 := zipper;
      for i := 0 to |keys|
        invariant Valid()
        invariant zipper == PressAll(z0, keys[..i])
      {
        assert keys[..i + 1][..i] == keys[..i];
        Handle(keys[i]);
      }
      assert keys[..|keys|] == keys;
    }
  }

  lemma ColumnIsDetermined(t: seq<scalar>, c: nat, d: nat)
    requires c <= |t| && d <= |t| && Offset(t, c) == Offset(t, d)
    ensures c == d
  {
    SplitAt(t, c);
    SplitAt(t, d);
    assert EncodeAll(t[..c]) == EncodeAll(t)[..Offset(t, c)];
    assert EncodeAll(t[..d]) == EncodeAll(t)[..Offset(t, d)];
    EncodeAllInjective(t[..c], t[..d]);
  }

  /** The bytes and the byte cursor determine the characters and the column. */
  lemma ReferenceIsDetermined(inputs: seq<seq<byte>>, focus: nat, cursorPos: nat, y: Zipper, z: Zipper)
    requires Represents(inputs, focus, cursorPos, y) && Represents(inputs, focus, cursorPos, z)
    ensures y == z
  {
    forall i | 0 <= i < |inputs| ensures y.fields[i] == z.fields[i] {
      EncodeAllInjective(y.fields[i], z.fields[i]);
    }
    assert y.fields == z.fields;
    if inputs != [] {
      ColumnIsDetermined(y.fields[focus], y.col, z.col);
    }
  }
}
