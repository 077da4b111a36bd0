/** The growing text buffers of the generator, and the files they are flushed to. */
module TextBuffers {
  import opened Templates

  const CHUNK := 4096

  class File {
    var text: string

    constructor ()
      ensures text == ""
    {
      text := "";
    }

    method Puts(s: string)
      modifies this
      ensures text == old(text) + s
    {
      text := text + s;
    }
  }

  /** `size` leaves out the place of the NUL. */
  class Buffer {
    var data: array?<char>
    var size: nat
    var used: nat

    ghost predicate Valid()
      reads this, data
    {
      && used <= size
      && (data == null ==> size == 0)
      && (data != null ==> data.Length == size + 1 && data[used] == NUL && NUL !in data[..used])
    }

    ghost function Contents(): string
      requires Valid()
      reads this, data
    {
      if data == null then "" else data[..used]
    }

    constructor ()
      ensures Valid() && Contents() == "" && data == null
    {
      data, size, used := null, 0, 0;
    }

    /** realloc: a larger block that starts with the same characters. */
    method Resize(newSize: nat)
      requires used <= size <= newSize && (data == null ==> used == 0) && (data != null ==> data.Length == size + 1)
      modifies this
      ensures size == newSize && used == old(used) && data != null && fresh(data) && data.Length == newSize + 1
      ensures data[..used] == if old(data) == null then "" else old(data[..used])
    {
      var block := new char[newSize + 1];
      if data != null {
        for k := 0 to used
          invariant used == old(used) <= size && data == old(data) && data.Length == size + 1
          invariant block[..k] == data[..k]
        {
          block[k] := data[k];
        }
      }
      data, size := block, newSize;
    }

    /**
      Formats into the room that is left, and where that does not do, grows the buffer by whole
      chunks and formats again. The bound of the second call is the size of the whole buffer.
     */
    method Put(text: string)
      requires Valid() && NUL !in text
      modifies this, data
      ensures Valid() && data != null && (data == old(data) || fresh(data))
      ensures Contents() == old(Contents()) + text
    {
      var room := if data == null then 0 else size - used;
      var cnt;
      if room > 0 {
        ghost var before := data[..used];
        cnt := Snprintf(data, used, room + 1, text);
        assert text[..|text|] == text;
        if cnt < room {
          used := used + cnt;
          return;
        }
        assert data[..used] == before;
      } else {
        var str := new char[1];
        cnt := Snprintf(str, 0, 1, text);
      }
      GrowthSuffices(size, used, room, cnt);
      Regrow(size + ((cnt - room) / CHUNK + 1) * CHUNK, text);
    }

    /** The second half: the text is known not to fit, and what has been written of it is void. */
    method Regrow(newSize: nat, text: string)
      requires used <= size && NUL !in text && newSize >= size && used + |text| < newSize
      requires data == null ==> size == 0
      requires data != null ==> data.Length == size + 1 && NUL !in data[..used]
      modifies this
      ensures Valid() && data != null && fresh(data)
      ensures Contents() == (if old(data) == null then "" else old(data[..used])) + text
    {
      Resize(newSize);
      ghost var before := data[..used];
      var cnt := Snprintf(data, used, size, text);
      assert text[..|text|] == text;
      used := used + cnt;
      assert data[..used] == before + text;
    }

    /** Writes the text to a file and starts again from the beginning of the buffer. */
    method Flush(file: File)
      requires Valid()
      modifies this, data, file
      ensures Valid() && Contents() == "" && data == old(data)
      ensures file.text == old(file.text) + old(Contents())
    {
      if data != null { file.Puts(data[..used]); }
      if size > 0 && data != null { data[0] := NUL; }
      used := 0;
      if data == null { assert old(Contents()) == "" && old(file.text) + "" == old(file.text); }
    }
  }

  /** After growing there is room for the text and its NUL. */
  lemma GrowthSuffices(size: nat, used: nat, room: nat, cnt: nat)
    requires used <= size && room <= cnt && (room == size - used || (room == 0 && size == 0))
    ensures used + cnt < size + ((cnt - room) / CHUNK + 1) * CHUNK
  {
  }

  datatype Op = Put(text: string) | Flush

  function Texts(ops: seq<Op>): string {
    if ops == [] then "" else (if ops[0].Put? then ops[0].text else "") + Texts(ops[1..])
  }

  /** However puts and flushes are mixed, the file and then the buffer hold everything in order. */
  method Perform(buffer: Buffer, file: File, ops: seq<Op>)
    requires buffer.Valid() && forall k :: 0 <= k < |ops| && ops[k].Put? ==> NUL !in ops[k].text
    modifies buffer, buffer.data, file
    ensures buffer.Valid() && file.text + buffer.Contents() == old(file.text) + old(buffer.Contents()) + Texts(ops)
  {
    hide Buffer.Valid;
    hide Buffer.Contents;
    ghost var start := file.text + buffer.Contents();
    assert start + Texts(ops[0..]) == start + Texts(ops) by { assert ops[0..] == ops; }
    for k := 0 to |ops|
      invariant buffer.Valid() && (buffer.data == old(buffer.data) || (buffer.data != null && fresh(buffer.data)))
      invariant file.text + buffer.Contents() + Texts(ops[k..]) == start + Texts(ops)
    {
      ghost var f, b, rest := file.text, buffer.Contents(), Texts(ops[k + 1..]);
      assert ops[k..][1..] == ops[k + 1..];
      match ops[k] {
        case Put(text) =>
          buffer.Put(text);
          assert f + (b + text) + rest == f + b + (text + rest);
        case Flush =>
          buffer.Flush(file);
          assert f + b + "" + rest == f + b + ("" + rest);
      }
    }
    assert Texts(ops[|ops|..]) == "";
    assert file.text + buffer.Contents() + "" == file.text + buffer.Contents();
  }
}
