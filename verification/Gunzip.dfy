/** The streaming gunzip of Bootbox/Bridge/GunzipStream.swift: reads may return any non-empty part of
    what they are asked for, and the decoder may consume any part of what it is offered. */
module Gunzip {
  import opened Options
  import opened GzipHeader

  const CAP: nat := 0x100000

  /** InputStream: `data` is everything it delivers before a read returns 0 or an error. */
  class InputStream {
    const data: seq<Byte>
    var at: nat

    constructor (data: seq<Byte>)
      ensures this.data == data && at == 0
    {
      this.data := data;
      at := 0;
    }

    /** read(dst + off, maxLength: max) */
    method Read(dst: array<Byte>, off: nat, max: nat) returns (r: nat)
      requires at <= |data| && 0 < max && off + max <= dst.Length
      modifies this, dst
      ensures r <= max && at == old(at) + r <= |data|
      ensures r == 0 <==> old(at) == |data|
      ensures dst[..off] == old(dst[..off]) && dst[off..off + r] == data[old(at)..at]
    {
      if at == |data| {
        return 0;
      }
      r :| 1 <= r <= max && at + r <= |data|;
      forall i | 0 <= i < r {
        dst[off + i] := data[at + i];
      }
      at := at + r;
    }
  }

  datatype Error = NotGzip | BadHeader | DecodeFailed

  datatype Result<T> = Ok(value: T) | Err(error: Error)

  /** Finished, stopped by an error, or still at it when the given calls have been made. */
  datatype Outcome = Finished | Stopped(error: Error) | Running

  /** What the decoder does with one call: how much it is ready to consume, and its status. */
  datatype Status = More | End | Failed
  datatype Turn = Turn(hunger: nat, status: Status)

  /** The first `n` calls all ask for another one. */
  ghost predicate StillMore(script: seq<Turn>, n: nat)
    requires n <= |script|
  {
    forall k | 0 <= k < n :: script[k].status.More?
  }

  ghost predicate AlwaysHungry(script: seq<Turn>) {
    forall k | 0 <= k < |script| :: script[k].hunger > 0
  }

  /** Call `i` is the one that ends the loop. */
  ghost predicate StopsAt(script: seq<Turn>, i: nat, status: Status) {
    i < |script| && script[i].status == status && StillMore(script, i)
  }

  /** The outcome of the decoding loop: the first call that does not ask for another one decides. */
  ghost predicate Ends(script: seq<Turn>, res: Outcome) {
    && (res == Finished <==> exists i: nat :: StopsAt(script, i, End))
    && (res == Stopped(DecodeFailed) <==> exists i: nat :: StopsAt(script, i, Failed))
    && (res == Running <==> StillMore(script, |script|))
  }

  class Inflater {
    const input: InputStream
    var buf: array<Byte>
    var have: nat
    var consumed: nat
    var eof: bool

    // the decoder's view: stream.src_ptr, stream.src_size and the FINALIZE flag
    var off: nat
    var srcSize: nat
    var finalize: bool
    ghost var start: nat          // where the header ends
    ghost var fed: seq<Byte>      // what the decoder has consumed

    /** While the header is parsed, the buffer holds everything that has been read. */
    ghost predicate Valid()
      reads this, input, buf
    {
      && have <= buf.Length && CAP <= buf.Length && have == input.at <= |input.data| && consumed == input.at
      && buf[..have] == input.data[..have]
      && (eof ==> have == |input.data|)
    }

    constructor (input: InputStream)
      requires input.at == 0
      ensures Valid() && this.input == input && fresh(buf) && have == 0 && !eof
    {
      this.input := input;
      buf := new Byte[CAP];
      have, consumed, eof := 0, 0, false;
      off, srcSize, finalize := 0, 0, false;
      start, fed := 0, [];
    }

    /** Enlarges the buffer. */
    method Grow(newCap: nat)
      requires Valid() && newCap >= buf.Length
      modifies this`buf
      ensures Valid() && fresh(buf) && buf.Length == newCap
    {
      var grown := new Byte[newCap];
      forall i | 0 <= i < have {
        grown[i] := buf[i];
      }
      assert grown[..have] == buf[..have];
      buf := grown;
    }

    /** One read into the free part of the buffer. */
    method ReadMore()
      requires Valid() && !eof && have < buf.Length
      modifies this`have, this`consumed, this`eof, input, buf
      ensures Valid() && have >= old(have) && (eof <==> have == old(have))
    {
      ghost var front := buf[..have];
      var r := input.Read(buf, have, buf.Length - have);
      if r > 0 {
        assert buf[..have + r] == front + buf[have..have + r];
        have := have + r;
        consumed := consumed + r;
      } else {
        eof := true;
      }
    }

    /** fill(toAtLeast:) */
    method Fill(minBytes: nat)
      requires Valid()
      modifies this, input, buf
      ensures Valid() && (buf == old(buf) || fresh(buf)) && have >= old(have)
      ensures have >= minBytes || (eof && have == |input.data|)
      ensures eof && !old(eof) ==> have < minBytes
    {
      while have < minBytes && !eof
        invariant Valid() && (buf == old(buf) || fresh(buf)) && have >= old(have)
        invariant eof && !old(eof) ==> have < minBytes
        decreases |input.data| - have, !eof
      {
        if have >= buf.Length {
          var newCap := if buf.Length * 2 > minBytes then buf.Length * 2 else minBytes;
          newCap := if newCap > have + CAP then newCap else have + CAP;
          Grow(newCap);
        }
        ReadMore();
      }
    }

    /** need(_:) */
    method Need(n: nat) returns (ok: bool)
      requires Valid() && !eof
      modifies this, input, buf
      ensures Valid() && (buf == old(buf) || fresh(buf)) && have >= old(have)
      ensures ok == (n <= |input.data|) && (ok ==> n <= have && !eof)
    {
      if have < n {
        Fill(n);
      }
      ok := have >= n;
    }

    /** FEXTRA */
    method SkipExtra(pos: nat) returns (p: Option<nat>)
      requires Valid() && !eof && pos <= have
      modifies this, input, buf
      ensures Valid() && (buf == old(buf) || fresh(buf)) && p == AfterExtra(input.data, pos)
      ensures p.Some? ==> !eof && p.value <= have
    {
      var ok := Need(pos + 2);
      if !ok {
        return None;
      }
      assert buf[pos] == buf[..have][pos] && buf[pos + 1] == buf[..have][pos + 1];
      var xlen := buf[pos] as nat + 256 * (buf[pos + 1] as nat);
      ok := Need(pos + 2 + xlen);
      if !ok {
        return None;
      }
      return Some(pos + 2 + xlen);
    }

    /** FNAME and FCOMMENT */
    method SkipString(pos: nat) returns (p: Option<nat>)
      requires Valid() && !eof && pos <= have
      modifies this, input, buf
      ensures Valid() && (buf == old(buf) || fresh(buf)) && p == AfterString(input.data, pos)
      ensures p.Some? ==> !eof && p.value <= have
    {
      var k := pos;
      while true
        invariant Valid() && (buf == old(buf) || fresh(buf)) && !eof && pos <= k <= have
        invariant AfterString(input.data, pos) == AfterString(input.data, k)
        decreases |input.data| - k
      {
        if k >= have {
          var ok := Need(k + 1);
          if !ok {
            return None;
          }
        }
        assert buf[k] == buf[..have][k];
        if buf[k] == 0 {
          return Some(k + 1);
        }
        k := k + 1;
      }
    }

    /** FEXTRA and FNAME */
    method ParseNames(flg: Byte) returns (pos: Option<nat>)
      requires Valid() && !eof && 10 <= have && IsGzip(input.data) && flg == input.data[3]
      modifies this, input, buf
      ensures Valid() && (buf == old(buf) || fresh(buf)) && pos == NameEnd(input.data)
      ensures pos.Some? ==> !eof && pos.value <= have
    {
      hide AfterExtra, AfterString, HasBit, IsGzip, Valid;
      pos := Some(10);
      if HasBit(flg, 4) {
        pos := SkipExtra(pos.value);
        if pos.None? {
          return;
        }
      }
      if HasBit(flg, 8) {
        pos := SkipString(pos.value);
      }
    }

    /** The optional fields. */
    method ParseFields(flg: Byte) returns (pos: Option<nat>)
      requires Valid() && !eof && 10 <= have && IsGzip(input.data) && flg == input.data[3]
      modifies this, input, buf
      ensures Valid() && (buf == old(buf) || fresh(buf)) && pos == HeaderEnd(input.data)
      ensures pos.Some? ==> !eof && pos.value <= have
    {
      hide AfterExtra, AfterString, HasBit, IsGzip, Valid, NameEnd;
      pos := ParseNames(flg);
      if pos.None? {
        return;
      }
      if HasBit(flg, 16) {
        pos := SkipString(pos.value);
        if pos.None? {
          return;
        }
      }
      if HasBit(flg, 2) {
        var ok := Need(pos.value + 2);
        pos := if ok then Some(pos.value + 2) else None;
      }
    }

    /** The header parse: it accepts exactly the data that starts with a complete header, and then
        the end of the file has not been seen. */
    method ParseHeader() returns (res: Result<nat>)
      requires Valid() && have == 0 && !eof
      modifies this, input, buf
      ensures Valid() && (buf == old(buf) || fresh(buf))
      ensures res == if !IsGzip(input.data) then Err(NotGzip)
                     else match HeaderEnd(input.data) case None => Err(BadHeader) case Some(p) => Ok(p)
      ensures res.Ok? ==> !eof && res.value <= have
    {
      hide AfterExtra, AfterString, HasBit, HeaderEnd;
      Fill(10);
      if have < 10 {
        return Err(NotGzip);
      }
      assert buf[0] == buf[..have][0] && buf[1] == buf[..have][1] && buf[2] == buf[..have][2] && buf[3] == buf[..have][3];
      if buf[0] != 0x1f || buf[1] != 0x8b || buf[2] != 8 {
        return Err(NotGzip);
      }
      var pos := ParseFields(buf[3]);
      return if pos.None? then Err(BadHeader) else Ok(pos.value);
    }

    /** While decoding: what the decoder has consumed and what it is offered are, in this order, the
        data behind the header up to what has been read. */
    ghost predicate Feeding()
      reads this, input, buf
    {
      && off + srcSize <= buf.Length && CAP <= buf.Length && consumed == input.at
      && Offered(buf[..], off, srcSize, input.data, input.at, start, fed)
      && finalize == eof && (eof ==> start + |fed| == |input.data|)
    }

    /** Moves the data behind the header to the front and presents it to the decoder. */
    method StripHeader(pos: nat)
      requires Valid() && !eof && pos <= have && HeaderEnd(input.data) == Some(pos)
      modifies this`have, this`off, this`srcSize, this`finalize, this`start, this`fed, buf
      ensures Feeding() && start == pos && fed == []
    {
      var avail := have - pos;
      ghost var tail := buf[..have][pos..];
      forall i | 0 <= i < avail {
        buf[i] := buf[pos + i];
      }
      assert buf[..avail] == tail;
      have := avail;
      off, srcSize, finalize := 0, avail, false;
      start, fed := pos, [];
      assert input.data[..input.at][pos..] == input.data[pos..input.at];
      assert buf[0..avail] == buf[..avail];
    }

    /** Reads more, but only when the decoder has consumed everything it was offered. */
    method Refill()
      requires Feeding()
      modifies this`have, this`consumed, this`off, this`srcSize, this`eof, this`finalize, input, buf
      ensures Feeding() && (srcSize == 0 ==> finalize) && (srcSize == old(srcSize) || have == srcSize)
    {
      if srcSize == 0 && !eof {
        var r := input.Read(buf, 0, CAP);
        if r > 0 {
          have := r;
          consumed := consumed + r;
          off, srcSize := 0, r;
        } else {
          eof := true;
          finalize := true;
        }
      }
    }

    /** compression_stream_process. It is offered the next bytes of the data; only when there are
        none left is it told so. */
    method Process(turn: Turn) returns (status: Status)
      requires Feeding() && (srcSize == 0 ==> finalize)
      modifies this`off, this`srcSize, this`fed
      ensures Feeding() && old(fed) <= fed && status == turn.status
      ensures |fed| == old(|fed|) + if turn.hunger < old(srcSize) then turn.hunger else old(srcSize)
    {
      hide Offered;
      var k := if turn.hunger < srcSize then turn.hunger else srcSize;
      Consumed(buf[..], off, srcSize, input.data, input.at, start, fed, k);
      fed := fed + buf[..][off..off + k];
      off := off + k;
      srcSize := srcSize - k;
      status := turn.status;
    }

    /** The decoding loop, for as many decoder calls as `script` has. */
    method Decode(script: seq<Turn>) returns (res: Outcome)
      requires Feeding()
      modifies this`have, this`consumed, this`off, this`srcSize, this`eof, this`finalize, this`fed, input, buf
      ensures Feeding() && old(fed) <= fed
      ensures Ends(script, res) && res != Stopped(NotGzip) && res != Stopped(BadHeader)
      ensures res == Running && AlwaysHungry(script) ==> finalize || |fed| >= old(|fed|) + |script|
    {
      for i := 0 to |script|
        invariant Feeding() && old(fed) <= fed && StillMore(script, i)
        invariant AlwaysHungry(script) ==> finalize || |fed| >= old(|fed|) + i
      {
        Refill();
        var status := Process(script[i]);
        match status {
          case End =>
            assert StopsAt(script, i, End);
            return Finished;
          case Failed =>
            assert StopsAt(script, i, Failed);
            return Stopped(DecodeFailed);
          case More =>
        }
      }
      return Running;
    }

    /** inflate: the decoder gets exactly the bytes behind the header, in order, and learns of the
        end only after the last one. */
    method Inflate(script: seq<Turn>) returns (res: Outcome)
      requires Valid() && have == 0 && !eof
      modifies this, input, buf
      ensures res == Stopped(NotGzip) <==> !IsGzip(input.data)
      ensures res == Stopped(BadHeader) <==> IsGzip(input.data) && HeaderEnd(input.data).None?
      ensures HeaderEnd(input.data).Some? ==>
                var p := HeaderEnd(input.data).value;
                && p + |fed| <= |input.data| && fed == input.data[p..p + |fed|]
                && (finalize ==> p + |fed| == |input.data|)
                && Ends(script, res)
                && (res == Running && AlwaysHungry(script) ==> finalize || |fed| >= |script|)
    {
      hide HeaderEnd, Ends, AlwaysHungry;
      EndNeedsMagic(input.data);
      var header := ParseHeader();
      if header.Err? {
        return Stopped(header.error);
      }
      StripHeader(header.value);
      res := Decode(script);
    }
  }

  /** Taking the first `k` bytes of what comes next in the data. */
  lemma Taken(d: seq<Byte>, start: nat, fed: seq<Byte>, src: seq<Byte>, k: nat)
    requires start + |fed| + |src| <= |d| && fed == d[start..start + |fed|] && k <= |src|
    requires src == d[start + |fed|..start + |fed| + |src|]
    ensures fed + src[..k] == d[start..start + |fed| + k]
    ensures src[k..] == d[start + |fed| + k..start + |fed| + |src|]
  {}

  /** The next `n` bytes of the buffer are what comes after `fed` in the data, up to `at`. */
  ghost predicate Offered(b: seq<Byte>, off: nat, n: nat, d: seq<Byte>, at: nat, start: nat, fed: seq<Byte>) {
    && off + n <= |b| && start + |fed| + n == at <= |d|
    && fed == d[start..start + |fed|] && b[off..off + n] == d[start + |fed|..at]
  }

  lemma Consumed(b: seq<Byte>, off: nat, n: nat, d: seq<Byte>, at: nat, start: nat, fed: seq<Byte>, k: nat)
    requires Offered(b, off, n, d, at, start, fed) && k <= n
    ensures Offered(b, off + k, n - k, d, at, start, fed + b[off..off + k])
  {
    var src := b[off..off + n];
    Taken(d, start, fed, src, k);
    assert b[off..off + k] == src[..k] && b[off + k..off + n] == src[k..];
  }

  lemma EndNeedsMagic(d: seq<Byte>)
    ensures HeaderEnd(d).Some? ==> IsGzip(d)
  {}
}
