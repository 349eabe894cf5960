/** read_line: bytes from a socket into a connection's buffer, up to the first
    read that leaves the buffer ending in CRLF. */
module LineReader {
  import opened Texts

  const BUFF_SIZE: nat := 1024

  datatype Reading = More(buff: string) | Line(text: string) | Broken(buff: string)

  predicate EndsLine(b: string) { |b| >= 2 && b[|b| - 2] == '\r' && b[|b| - 1] == '\n' }

  /** What one read does to the buffer; an empty chunk is a timeout, an error or the end. */
  function Take(buff: string, chunk: string): (r: Reading)
    requires |buff| + |chunk| <= BUFF_SIZE
    ensures r.More? ==> r.buff == buff + chunk && |r.buff| < BUFF_SIZE
    ensures r.Line? ==> r.text + CRLF == buff + chunk
    ensures r.Broken? ==> r.buff == buff + chunk
  {
    var b := buff + chunk;
    if chunk == "" then Broken(buff)
    else if EndsLine(b) then Line(b[..|b| - 2])
    else if |b| == BUFF_SIZE then Broken(b)
    else More(b)
  }

  /** The reads in order: each sees one chunk, and takes what the buffer has room for. */
  function ReadFrom(buff: string, chunks: seq<string>): (r: Reading)
    requires |buff| <= BUFF_SIZE
    ensures !r.More?
    ensures r.Line? ==> |r.text| + 2 <= BUFF_SIZE
    ensures r.Broken? ==> |r.buff| <= BUFF_SIZE
    decreases |chunks|
  {
    if chunks == [] then Broken(buff)
    else
      var n := Least(|chunks[0]|, BUFF_SIZE - |buff|);
      match Take(buff, chunks[0][..n])
      case More(b) => ReadFrom(b, chunks[1..])
      case r => r
  }

  lemma ReadStep(buff: string, chunks: seq<string>)
    requires |buff| <= BUFF_SIZE && chunks != []
    ensures var t := Take(buff, chunks[0][..Least(|chunks[0]|, BUFF_SIZE - |buff|)]);
            ReadFrom(buff, chunks) == if t.More? then ReadFrom(t.buff, chunks[1..]) else t
  {
  }

  lemma ReadNone(buff: string, chunks: seq<string>)
    requires |buff| <= BUFF_SIZE && chunks == []
    ensures ReadFrom(buff, chunks) == Broken(buff)
  {
  }

  function Least(a: nat, b: nat): nat { if a < b then a else b }

  /** The buffer of a connection: buff and offset. */
  class LineBuffer {
    const buff: array<char>
    var offset: nat

    ghost predicate Valid()
      reads this
    {
      buff.Length == BUFF_SIZE && offset <= BUFF_SIZE
    }

    ghost function Contents(): (s: string)
      requires Valid()
      reads this, buff
      ensures |s| == offset
    {
      buff[..offset]
    }

    constructor ()
      ensures Valid() && offset == 0 && fresh(buff)
    {
      buff, offset := new char[BUFF_SIZE], 0;
    }

    /** On success the line is in the buffer, closed by a NUL, and offset is 0. */
    method ReadLine(chunks: seq<string>) returns (ok: bool)
      requires Valid()
      modifies this, buff
      ensures Valid() && (ok <==> ReadFrom(old(Contents()), chunks).Line?)
      ensures match ReadFrom(old(Contents()), chunks)
              case Line(text) => offset == 0 && |text| < 1024 && buff[..|text|] == text && buff[|text|] == '\0'
              case Broken(b) => Contents() == b
              case More(_) => false
    {
      hide ReadFrom;
      ok := ReadChunks(chunks);
    }

    /** Reads until one of the reads says whether there is a line. */
    method ReadChunks(chunks: seq<string>) returns (ok: bool)
      requires Valid()
      modifies this, buff
      ensures Valid() && Result(ok, ReadFrom(old(Contents()), chunks))
    {
      hide Contents, Result, ReadFrom;
      var i := 0;
      while i < |chunks|
        invariant i <= |chunks| && Valid()
        invariant ReadFrom(Contents(), chunks[i..]) == ReadFrom(old(Contents()), chunks)
      {
        ReadStep(Contents(), chunks[i..]);
        var r := ReadOnce(chunks[i]);
        if r != MORE { return r == DONE; }
        i := i + 1;
      }
      Unread();
      ReadNone(Contents(), chunks[i..]);
      return false;
    }

    ghost predicate Result(ok: bool, r: Reading)
      requires Valid()
      reads this, buff
    {
      match r
      case Line(text) => ok && offset == 0 && |text| < BUFF_SIZE && buff[..|text|] == text && buff[|text|] == '\0'
      case _ => !ok && Contents() == r.buff
    }

    lemma Unread()
      requires Valid()
      ensures Result(false, Broken(Contents()))
    {
    }

    /** One turn of the loop. */
    method ReadOnce(avail: string) returns (r: int)
      requires Valid()
      modifies this, buff
      ensures Valid()
      ensures var t := Take(old(Contents()), avail[..Least(|avail|, BUFF_SIZE - old(offset))]);
              if t.More? then r == MORE && Contents() == t.buff
              else r == (if t.Line? then DONE else FAIL) && Result(t.Line?, t)
    {
      var n := Least(|avail|, BUFF_SIZE - offset);
      if n == 0 { return FAIL; }
      Store(avail[..n]);
      ghost var b := Contents();
      if offset >= 2 && buff[offset - 2] == '\r' && buff[offset - 1] == '\n' {
        assert EndsLine(b);
        offset := offset - 2;
        buff[offset] := '\0';
        offset := 0;
        return DONE;
      }
      return if offset == BUFF_SIZE then FAIL else MORE;
    }

    /** The copy made by the read call. */
    method Store(chunk: string)
      requires Valid() && offset + |chunk| <= BUFF_SIZE
      modifies this, buff
      ensures Valid() && offset == old(offset) + |chunk| && Contents() == old(Contents()) + chunk
    {
      var k := 0;
      while k < |chunk|
        invariant k <= |chunk| && offset == old(offset)
        invariant buff[..offset] == old(buff[..offset])
        invariant buff[offset..offset + k] == chunk[..k]
      {
        buff[offset + k] := chunk[k];
        k := k + 1;
      }
      assert buff[..offset + k] == buff[..offset] + buff[offset..offset + k];
      offset := offset + |chunk|;
    }
  }

  const DONE := 0
  const FAIL := -1
  const MORE := 1

  function Joined(chunks: seq<string>): string {
    if chunks == [] then "" else chunks[0] + Joined(chunks[1..])
  }

  /** However a one-line reply is cut up, read_line returns that line when it fits
      behind what the buffer already holds, and fails with a full buffer otherwise. */
  lemma {:induction false} CutsDoNotMatter(left: string, reply: string, chunks: seq<string>)
    requires |left| <= 1024 && '\n' !in reply
    requires "" !in chunks && Joined(chunks) == reply + CRLF
    ensures ReadFrom(left, chunks) == if |left| + |reply| + 2 <= 1024 then Line(left + reply)
                                      else Broken((left + reply + CRLF)[..1024])
  {
    assert reply + CRLF == "" + (reply + CRLF);
    RestOfLine(left, "", reply + CRLF, chunks);
    assert left + "" == left && left + (reply + CRLF) == left + reply + CRLF;
  }

  lemma FirstChunk(chunks: seq<string>)
    ensures Joined(chunks) == if chunks == [] then "" else chunks[0] + Joined(chunks[1..])
  {
  }

  /** As above, with the part got already read and rest still to come. */
  lemma {:induction false} RestOfLine(left: string, got: string, rest: string, chunks: seq<string>)
    requires |left + got| <= BUFF_SIZE && OneLine(got + rest)
    requires "" !in chunks && Joined(chunks) == rest && rest != ""
    ensures var all := left + (got + rest);
            ReadFrom(left + got, chunks) ==
            if |all| <= BUFF_SIZE then Line(all[..|all| - 2]) else Broken(all[..BUFF_SIZE])
    decreases |chunks|
  {
    hide ReadFrom, EndsLine, Joined, OneLine, Take;
    FirstChunk(chunks);
    ReadStep(left + got, chunks);
    var buff, c := left + got, chunks[0];
    var n := Least(|c|, BUFF_SIZE - |buff|);
    var d, later := c[..n], rest[n..];
    assert rest == d + later;
    Grown(left, got, d, later);
    OneTake(left, got + rest, buff, d);
    if |buff + d| < |left + (got + rest)| && |buff + d| < BUFF_SIZE {
      assert d == c && later == Joined(chunks[1..]);
      RestOfLine(left, got + d, later, chunks[1..]);
    }
  }

  lemma Grown(left: string, got: string, d: string, later: string)
    ensures left + (got + d) == left + got + d
    ensures got + d + later == got + (d + later)
    ensures var all := left + (got + (d + later));
            left + got + d <= all && left + got + d == all[..|left + got + d|]
  {
    assert left + (got + (d + later)) == left + got + d + later;
  }

  /** One read of a line: it ends the line, fills the buffer, or leaves more to come. */
  lemma OneTake(left: string, t: string, buff: string, c: string)
    requires OneLine(t) && buff + c <= left + t && |left| <= |buff| && |buff + c| <= BUFF_SIZE
    requires c == "" ==> |buff| == BUFF_SIZE < |left + t|
    ensures var all, b := left + t, buff + c;
            Take(buff, c) == if b == all then Line(all[..|all| - 2])
                             else if |b| == BUFF_SIZE then Broken(b) else More(b)
  {
    hide EndsLine, OneLine;
    var all, b := left + t, buff + c;
    assert b == all[..|b|];
    if b == all {
      Ended(left, t);
    } else if c != "" {
      NotEnded(left, t, |b| - |left|);
    } else {
      assert buff + c == buff;
    }
  }

  predicate OneLine(t: string) { EndsLine(t) && '\n' !in t[..|t| - 1] }

  lemma Ended(left: string, t: string)
    requires OneLine(t)
    ensures EndsLine(left + t)
  {
  }

  /** Only the whole line ends in CRLF. */
  lemma NotEnded(left: string, t: string, k: nat)
    requires OneLine(t) && 0 < k < |t|
    ensures !EndsLine((left + t)[..|left| + k])
  {
    assert (left + t)[..|left| + k][|left| + k - 1] == t[..|t| - 1][k - 1];
  }
}
