// Activation frames on a byte stream: magic, job id, payload length, payload.
module Frame {
  import opened ByteStrings
  import opened Outcomes

  const MAGIC: nat := 0xAC71_AC71
  const HEADER_SIZE: nat := 16

  // The frame written by ActivationClient.send; struct.pack refuses what does not fit.
  function MakeFrame(jobId: int, payload: Bytes): Result<Bytes> {
    if 0 <= jobId < 0x1_0000_0000_0000_0000 && |payload| < 0x1_0000_0000
    then Ok(BigEndian(MAGIC, 4) + BigEndian(jobId, 8) + BigEndian(|payload|, 4) + payload)
    else Err(StructError)
  }

  // Byte by byte: 0xAC71AC71, the job id in eight bytes and the length in four, the most significant
  // byte of each first, and the payload.
  lemma FrameBytes(jobId: int, payload: Bytes)
    ensures MakeFrame(jobId, payload).Ok? <==>
              0 <= jobId < 0x1_0000_0000_0000_0000 && |payload| < 0x1_0000_0000
    ensures MakeFrame(jobId, payload).Ok? ==>
              var f := MakeFrame(jobId, payload).value;
              && |f| == 16 + |payload| && f[..4] == [0xAC, 0x71, 0xAC, 0x71] && f[16..] == payload
              && (forall i :: 0 <= i < 8 ==> f[4..12][i] == jobId / Power256(7 - i) % 256)
              && (forall i :: 0 <= i < 4 ==> f[12..16][i] == |payload| / Power256(3 - i) % 256)
  {
    if MakeFrame(jobId, payload).Ok? {
      MagicBytes();
      forall i | 0 <= i < 8 ensures BigEndian(jobId, 8)[i] == jobId / Power256(7 - i) % 256 {
        ByteAt(jobId, 8, i);
      }
      forall i | 0 <= i < 4 ensures BigEndian(|payload|, 4)[i] == |payload| / Power256(3 - i) % 256 {
        ByteAt(|payload|, 4, i);
      }
      hide BigEndian, Power256;
      Pieces(BigEndian(MAGIC, 4), BigEndian(jobId, 8), BigEndian(|payload|, 4), payload);
    }
  }

  lemma Pieces(a: Bytes, b: Bytes, c: Bytes, payload: Bytes)
    requires |a| == 4 && |b| == 8 && |c| == 4
    ensures var f := a + b + c + payload;
            |f| == 16 + |payload| && f[..4] == a && f[4..12] == b && f[12..16] == c && f[16..] == payload
  {
  }

  lemma MagicBytes()
    ensures BigEndian(MAGIC, 4) == [0xAC, 0x71, 0xAC, 0x71]
  {
    assert MAGIC / 256 == 0xAC_71AC && MAGIC / 256 / 256 == 0xAC71;
    assert BigEndian(0xAC, 1) == BigEndian(0, 0) + [0xAC];
    assert BigEndian(0xAC71, 2) == BigEndian(0xAC, 1) + [0x71];
    assert BigEndian(0xAC_71AC, 3) == BigEndian(0xAC71, 2) + [0xAC];
    assert BigEndian(MAGIC, 4) == BigEndian(0xAC_71AC, 3) + [0x71];
  }

  // A connection, as the bytes still to come before the peer closes it. How many of them one read
  // returns is up to the network.
  class Reader {
    var data: Bytes

    constructor (data: Bytes)
      ensures this.data == data
    {
      this.data := data;
    }

    method Read(n: nat) returns (chunk: Bytes)
      requires n > 0
      modifies this
      ensures |chunk| <= n && old(data) == chunk + data
      ensures chunk == [] <==> old(data) == []
    {
      if data == [] {
        return [];
      }
      var k: nat :| 1 <= k <= n && k <= |data|;
      chunk := data[..k];
      data := data[k..];
    }
  }

  // What reading n bytes comes to, and what is left to read.
  function Take(data: Bytes, n: nat): (Result<Bytes>, Bytes) {
    if n <= |data| then (Ok(data[..n]), data[n..]) else (Err(EOFError), [])
  }

  // _read_exactly, for every way the stream is split into chunks.
  method ReadExactly(reader: Reader, n: nat) returns (r: Result<Bytes>)
    modifies reader
    ensures (r, reader.data) == Take(old(reader.data), n)
  {
    var buf: Bytes := [];
    while |buf| < n
      invariant |buf| <= n && old(reader.data) == buf + reader.data
    {
      var chunk := reader.Read(n - |buf|);
      if chunk == [] {
        return Err(EOFError);
      }
      buf := buf + chunk;
    }
    assert old(reader.data)[..n] == buf && old(reader.data)[n..] == reader.data;
    return Ok(buf);
  }

  function Parse(data: Bytes): (Result<(nat, Bytes)>, Bytes) {
    var (header, rest) := Take(data, HEADER_SIZE);
    if header.Err? then (Err(header.error), rest)
    else
      var h := header.value;
      if FromBigEndian(h[..4]) != MAGIC then (Err(ValueError), rest)
      else
        var (payload, left) := Take(rest, FromBigEndian(h[12..]));
        if payload.Err? then (Err(payload.error), left)
        else (Ok((FromBigEndian(h[4..12]), payload.value)), left)
  }

  // _read_frame, up to the payload.
  method ReadFrame(reader: Reader) returns (r: Result<(nat, Bytes)>)
    modifies reader
    ensures (r, reader.data) == Parse(old(reader.data))
  {
    var header := ReadExactly(reader, HEADER_SIZE);
    if header.Err? {
      return Err(header.error);
    }
    var magic := FromBigEndian(header.value[..4]);
    var jobId := FromBigEndian(header.value[4..12]);
    var payloadLength := FromBigEndian(header.value[12..]);
    if magic != MAGIC {
      return Err(ValueError);
    }
    var payload := ReadExactly(reader, payloadLength);
    if payload.Err? {
      return Err(payload.error);
    }
    return Ok((jobId, payload.value));
  }

  lemma HeaderFields(jobId: int, payload: Bytes, n: nat)
    requires MakeFrame(jobId, payload).Ok? && HEADER_SIZE <= n <= |MakeFrame(jobId, payload).value|
    ensures var f := MakeFrame(jobId, payload).value[..n];
            && FromBigEndian(f[..16][..4]) == MAGIC && FromBigEndian(f[..16][4..12]) == jobId
            && FromBigEndian(f[..16][12..]) == |payload| && f[16..] == payload[..n - 16]
  {
    var f := MakeFrame(jobId, payload).value[..n];
    Widths();
    ReadBack(MAGIC, 4);
    ReadBack(jobId, 8);
    ReadBack(|payload|, 4);
    Fields(BigEndian(MAGIC, 4), BigEndian(jobId, 8), BigEndian(|payload|, 4), payload, n);
  }

  lemma Fields(a: Bytes, b: Bytes, c: Bytes, payload: Bytes, n: nat)
    requires |a| == 4 && |b| == 8 && |c| == 4 && 16 <= n <= 16 + |payload|
    ensures var f := (a + b + c + payload)[..n];
            f[..16][..4] == a && f[..16][4..12] == b && f[..16][12..] == c && f[16..] == payload[..n - 16]
  {
    var all := a + b + c + payload;
    var f := all[..n];
    assert f[..16] == all[..16] == a + b + c;
    assert (a + b + c)[..4] == a && (a + b + c)[4..12] == b && (a + b + c)[12..] == c;
    assert all[16..] == payload;
    forall i | 0 <= i < n - 16 ensures f[16..][i] == payload[..n - 16][i] {
      assert all[16..][i] == payload[i];
    }
  }

  // What was framed is read back, and no byte beyond it is consumed.
  lemma RoundTrip(jobId: int, payload: Bytes, rest: Bytes)
    requires MakeFrame(jobId, payload).Ok?
    ensures Parse(MakeFrame(jobId, payload).value + rest) == (Ok((jobId, payload)), rest)
  {
    var f := MakeFrame(jobId, payload).value;
    HeaderFields(jobId, payload, |f|);
    assert f[..|f|] == f;
    assert (f + rest)[..16] == f[..16] && (f + rest)[16..] == payload + rest;
    assert (payload + rest)[..|payload|] == payload && (payload + rest)[|payload|..] == rest;
  }

  // A connection closed before the end of the frame never yields one.
  lemma StrictPrefixFails(jobId: int, payload: Bytes, n: nat)
    requires MakeFrame(jobId, payload).Ok? && n < |MakeFrame(jobId, payload).value|
    ensures Parse(MakeFrame(jobId, payload).value[..n]) == (Err(EOFError), [])
  {
    if n >= 16 {
      HeaderFields(jobId, payload, n);
    }
  }

  // Whatever is read was framed: the only stream that reads as a job and its payload is the frame.
  lemma OnlyFramesParse(data: Bytes)
    requires Parse(data).0.Ok?
    ensures var (parsed, rest) := Parse(data);
            MakeFrame(parsed.value.0, parsed.value.1).Ok? &&
            data == MakeFrame(parsed.value.0, parsed.value.1).value + rest
  {
    var h := data[..16];
    Widths();
    WriteBack(h[..4]);
    WriteBack(h[4..12]);
    WriteBack(h[12..]);
    assert h == h[..4] + h[4..12] + h[12..];
    assert data == h + data[16..];
  }

  lemma {:induction false} WriteBack(b: Bytes)
    ensures FromBigEndian(b) < Power256(|b|) && BigEndian(FromBigEndian(b), |b|) == b
  {
    if |b| == 0 {
    } else {
      var most, last := b[..|b| - 1], b[|b| - 1];
      WriteBack(most);
      assert FromBigEndian(b) / 256 == FromBigEndian(most) && FromBigEndian(b) % 256 == last;
      assert b == most + [last];
    }
  }
}
