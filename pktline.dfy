/**
 * The pkt-line framing of the git smart HTTP protocol: a payload preceded by
 * its length plus four, in lower-case hexadecimal, zero-padded to four
 * digits; "0000" is the flush packet.
 */
module Pkt {
  import opened Wrappers
  import opened GoStrings
  import opened Numerals

  /** The largest length four hex digits can hold. */
  const MaxPktLength := 0xffff

  const FlushPkt := "0000"

  /** fmt.Sprintf("%04s", strconv.FormatInt(int64(len(payload)+4), 16)) */
  function LengthPrefix(payload: string): string {
    PadZeros(FormatUint(|payload| + 4, 16), 4)
  }

  /** The prefix is hexadecimal for the payload's length plus four, and four digits long exactly when that fits. */
  lemma LengthPrefixShape(payload: string)
    ensures var r := LengthPrefix(payload);
      && AllDigits(r, 16) && ParseUint(r, 16) == |payload| + 4
      && |r| >= 4
      && (|r| == 4 <==> |payload| + 4 <= MaxPktLength)
  {
    var digits := FormatUint(|payload| + 4, 16);
    assert Pow(16, 4) == 65536;
    FormatUintLength(|payload| + 4, 16, 4);
    PadZerosDigits(digits, 4, 16);
    ParseFormatUint(|payload| + 4, 16);
  }

  /** The bytes PktWrite sends for `payload`. */
  function PktLine(payload: string): string {
    LengthPrefix(payload) + payload
  }

  /** One decoded packet. */
  datatype Packet = Flush | Data(payload: string)

  /**
   * A reference reader for one packet: four hex digits giving the total
   * length (0 for a flush packet), then the payload; returns the packet and
   * what follows it, or None when the input is not well framed.
   */
  function ReadPacket(s: string): Option<(Packet, string)> {
    if |s| < 4 || !AllDigits(s[..4], 16) then None
    else
      var n := ParseUint(s[..4], 16);
      if n == 0 then Some((Flush, s[4..]))
      else if n < 4 || n > |s| then None
      else Some((Data(s[4..n]), s[n..]))
  }

  /** A payload that fits is read back exactly, and what follows is left untouched. */
  lemma PktLineRoundTrip(payload: string, rest: string)
    requires |payload| + 4 <= MaxPktLength
    ensures ReadPacket(PktLine(payload) + rest) == Some((Data(payload), rest))
  {
    var p := LengthPrefix(payload);
    LengthPrefixShape(payload);
    var line := PktLine(payload);
    var s := line + rest;
    var n := |payload| + 4;
    assert line[..4] == p && line[4..] == payload;
    assert s[n..] == rest;
    SliceOfConcat(line, rest, 0, 4);
    SliceOfConcat(line, rest, 4, n);
    assert s[..4] == s[0..4];
    assert line[4..n] == line[4..];
  }

  lemma FlushRoundTrip(rest: string)
    ensures ReadPacket(FlushPkt + rest) == Some((Flush, rest))
  {
    var s := FlushPkt + rest;
    assert s[..4] == FlushPkt;
    assert ParseUint(FlushPkt, 16) == 0 by {
      assert FlushPkt[..3] == "000" && "000"[..2] == "00" && "00"[..1] == "0" && "0"[..0] == "";
    }
    assert s[4..] == rest;
  }

  /**
   * PktWrite does not cut a payload longer than 65531 bytes: the prefix grows
   * past four digits, and a four-digit reader can then not recover the payload.
   */
  lemma PktLineOverlong(payload: string)
    requires |payload| + 4 > MaxPktLength
    ensures |LengthPrefix(payload)| > 4
    ensures ReadPacket(PktLine(payload)) != Some((Data(payload), ""))
  {
    var s := PktLine(payload);
    LengthPrefixShape(payload);
    if |s| >= 4 && AllDigits(s[..4], 16) {
      var n := ParseUint(s[..4], 16);
      ParseUintBound(s[..4]);
      if 4 <= n <= |s| {
        assert |s[4..n]| < |payload|;
      }
    }
  }

  /** Four hex digits denote at most 0xffff. */
  lemma ParseUintBound(s: string)
    requires |s| == 4 && AllDigits(s, 16)
    ensures ParseUint(s, 16) <= MaxPktLength
  {
    ParseUintBelowPow(s);
    assert Pow(16, 4) == 65536;
  }

  lemma {:induction false} ParseUintBelowPow(s: string)
    requires AllDigits(s, 16)
    ensures ParseUint(s, 16) < Pow(16, |s|)
    decreases |s|
  {
    if s != [] {
      var init := s[..|s| - 1];
      assert AllDigits(init, 16) by {
        forall i | 0 <= i < |init| ensures IsDigit(init[i], 16) {
          assert init[i] == s[i];
        }
      }
      ParseUintBelowPow(init);
      assert IsDigit(s[|s| - 1], 16);
      assert DigitValue(s[|s| - 1]) < 16;
      assert ParseUint(s, 16) <= (Pow(16, |init|) - 1) * 16 + 15;
    }
  }

  lemma Hex30And31()
    ensures FormatUint(30, 16) == "1e" && FormatUint(31, 16) == "1f"
  {
    assert 30 / 16 == 1 && 30 % 16 == 14 && 31 / 16 == 1 && 31 % 16 == 15;
    assert FormatUint(1, 16) == "1";
  }

  lemma PrefixOfShortPayload(payload: string)
    requires |payload| == 26 || |payload| == 27
    ensures LengthPrefix(payload) == if |payload| == 26 then "001e" else "001f"
  {
    Hex30And31();
    assert Zeros(2) == "00";
  }

  /** The first line of the upload-pack advertisement is 26 bytes long, so its prefix is 001e. */
  lemma UploadPackServiceLine(payload: string)
    requires payload == "# service=git-upload-pack\n"
    ensures |payload| == 26
    ensures PktLine(payload) == "001e" + payload
  {
    PrefixOfShortPayload(payload);
  }

  /** The receive-pack one is 27 bytes long, so its prefix is 001f. */
  lemma ReceivePackServiceLine(payload: string)
    requires payload == "# service=git-receive-pack\n"
    ensures |payload| == 27
    ensures PktLine(payload) == "001f" + payload
  {
    PrefixOfShortPayload(payload);
  }
}
