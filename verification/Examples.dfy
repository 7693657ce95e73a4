/**
 Texts as they are on the wire, in headers and in Redis, spelled out: the names and constants the other
 modules share between what prints and what reads.
 */
module Examples {
  import opened Bytes
  import Seqs
  import Decimal
  import Stream
  import Channels
  import Sse
  import KeepAlive
  import Resume
  import Resp
  import Template

  predicate IsAscii(s: string) { forall i :: 0 <= i < |s| ==> s[i] < 128 as char }

  function Ascii(s: string): bytes
    requires IsAscii(s)
  {
    seq(|s|, i requires 0 <= i < |s| => (s[i] as int) as byte)
  }

  // ---------------------------------------------------------------- Redis keys

  lemma KeyNames()
    ensures Channels.IdKey("1/2") == "1/2:id" && Channels.DoneKey("1/2") == "1/2:done"
    ensures Channels.KillKey("1/2") == "1/2:kill"
    ensures Channels.Matches("1", "1:2:id") && !Channels.Matches("1", "12:id") && !Channels.Matches("1:2", "1:id")
  {
    assert "1:2:id"[..2] == "1:" && "12:id"[1] == '2' && "1:id"[2] == 'i';
  }

  // ---------------------------------------------------------------- Server-sent events

  lemma FieldNames()
    ensures Sse.ID == Ascii("id") && Sse.DATA == Ascii("data") && Sse.EVENT == Ascii("event")
    ensures KeepAlive.KEEPALIVE == Ascii(":keepalive") && [LF] == Ascii("\n") && [CR] == Ascii("\r")
    ensures [Sse.SPACE] == Ascii(" ") && [Sse.COLON] == Ascii(":") && [Resume.DASH] == Ascii("-")
  {
  }

  // ---------------------------------------------------------------- Decimal

  lemma Numbers()
    ensures Decimal.Text(0) == Ascii("0") && Decimal.Text(307) == Ascii("307") && Decimal.Text(-12) == Ascii("-12")
    ensures [Decimal.MINUS] == Ascii("-") && [Decimal.PLUS] == Ascii("+")
  {
    assert Decimal.Digits(30) == [51, 48] && Decimal.Digits(307) == [51, 48, 55] && Decimal.Digits(12) == [49, 50];
  }

  // ---------------------------------------------------------------- RESP

  lemma ReplyKinds()
    ensures [Resp.STATUS] == Ascii("+") && [Resp.FAILURE] == Ascii("-") && [Resp.INTEGER] == Ascii(":")
    ensures [Resp.BULK] == Ascii("$") && [Resp.ARRAY] == Ascii("*") && Resp.CRLF == Ascii("\r\n")
    ensures Resp.BUFFER == 4096
  {
  }

  // ---------------------------------------------------------------- Routes

  lemma Patterns()
    ensures Template.DefaultPattern(false, false) == "[^/]+" && Template.DefaultPattern(true, false) == "[^.]+"
    ensures Template.DefaultPattern(false, true) == "[^?&]+" && Template.DefaultPattern(true, true) == "[^?&]+"
    ensures Template.Repeat(2) == ["%s", "%s"]
  {
  }
}
