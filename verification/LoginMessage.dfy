/**
 The byte string a node signs to log in: four fields between newlines. A device
 id may hold newlines of its own, so the message is read back from its end.
 */
module LoginMessage {
  import opened Wrappers
  import opened Text
  import opened Decimal

  datatype Login = Login(deviceId: string, nodeId: nat, timestamp: int, nonce: string)

  const HEADER := "login\n"

  function Encode(l: Login): string {
    HEADER + TrimSpace(l.deviceId) + "\n" + PrintNat(l.nodeId) + "\n" + PrintInt(l.timestamp)
    + "\n" + TrimSpace(l.nonce)
  }

  /** uintToString: zero is written without going through the formatter. */
  function UintToString(v: nat): (s: string)
    ensures s == PrintNat(v)
  {
    if v == 0 then "0" else PrintNat(v)
  }

  /** loginSignBytes: the message as the builder assembles it, piece by piece. */
  method LoginSignBytes(deviceId: string, nodeId: nat, timestamp: int, nonce: string) returns (sb: string)
    ensures sb == Encode(Login(deviceId, nodeId, timestamp, nonce))
  {
    sb := "login\n";
    sb := sb + TrimSpace(deviceId);
    sb := sb + "\n";
    sb := sb + UintToString(nodeId);
    sb := sb + "\n";
    sb := sb + PrintInt(timestamp);
    sb := sb + "\n";
    sb := sb + TrimSpace(nonce);
  }

  /** The fields as they are signed, white space around the texts removed. */
  function Signed(l: Login): Login {
    l.(deviceId := TrimSpace(l.deviceId), nonce := TrimSpace(l.nonce))
  }

  /** What the signer's types allow: a uint32 node and an int64 time stamp. */
  predicate InRange(l: Login) {
    l.nodeId <= MAX_UINT32 && MIN_INT64 <= l.timestamp <= MAX_INT64
  }

  /** The text before and after the last newline. */
  function SplitLast(s: string): (r: Option<(string, string)>)
    ensures r.Some? ==> s == r.value.0 + "\n" + r.value.1 && '\n' !in r.value.1
  {
    if s == "" then None
    else if s[|s| - 1] == '\n' then Some((s[..|s| - 1], ""))
    else
      var r := SplitLast(s[..|s| - 1]);
      if r.None? then None else Some((r.value.0, r.value.1 + [s[|s| - 1]]))
  }

  /** Reads a message from right to left: nonce, time stamp, node, then the device id. */
  function Decode(s: string): Option<Login> {
    var last := SplitLast(s);
    if last.None? then None else
    var time := SplitLast(last.value.0);
    if time.None? then None else
    var node := SplitLast(time.value.0);
    if node.None? then None else
    var timestamp := Atoi(time.value.1);
    var nodeId := Atoi(node.value.1);
    if timestamp.None? || nodeId.None? || nodeId.value < 0 || !(HEADER <= node.value.0) then None
    else Some(Login(node.value.0[|HEADER|..], nodeId.value, timestamp.value, last.value.1))
  }

  lemma {:induction false} SplitAfterJoin(a: string, b: string)
    requires '\n' !in b
    ensures SplitLast(a + "\n" + b) == Some((a, b))
  {
    var s := a + "\n" + b;
    if b == "" {
      assert s[..|s| - 1] == a;
    } else {
      var front := b[..|b| - 1];
      assert s[..|s| - 1] == a + "\n" + front;
      SplitAfterJoin(a, front);
      assert front + [b[|b| - 1]] == b;
    }
  }

  /**
   A message can be read back exactly when its nonce, once trimmed, holds no
   newline. The device id is unrestricted.
   */
  lemma DecodeInvertsEncode(l: Login)
    requires InRange(l)
    ensures Decode(Encode(l)) == Some(Signed(l)) <==> '\n' !in TrimSpace(l.nonce)
  {
    if '\n' !in TrimSpace(l.nonce) {
      var head := HEADER + TrimSpace(l.deviceId);
      var withNode := head + "\n" + PrintNat(l.nodeId);
      var withTime := withNode + "\n" + PrintInt(l.timestamp);
      assert Encode(l) == withTime + "\n" + TrimSpace(l.nonce);
      SplitAfterJoin(withTime, TrimSpace(l.nonce));
      PrintedIsPlain(l.timestamp);
      SplitAfterJoin(withNode, PrintInt(l.timestamp));
      PrintedIsPlain(l.nodeId);
      SplitAfterJoin(head, PrintNat(l.nodeId));
      PrintThenAtoi(l.timestamp);
      assert PrintInt(l.nodeId) == PrintNat(l.nodeId);
      PrintThenAtoi(l.nodeId);
      assert head[|HEADER|..] == TrimSpace(l.deviceId);
    }
  }

  /** Equal bytes mean equal fields: one signature cannot stand for two logins. */
  lemma EncodeIsInjective(a: Login, b: Login)
    requires InRange(a) && InRange(b)
    requires '\n' !in TrimSpace(a.nonce) && '\n' !in TrimSpace(b.nonce)
    requires Encode(a) == Encode(b)
    ensures Signed(a) == Signed(b)
  {
    DecodeInvertsEncode(a);
    DecodeInvertsEncode(b);
  }

  /**
   Without the restriction on nonces two different logins sign the same bytes: a
   nonce that spells out a node and a time stamp can be read as part of the id.
   */
  lemma NewlineInNonceIsAmbiguous(id: string, node: nat, ts: int, node': nat, ts': int, x: string)
    requires id != "" && x != "" && Plain(id) && Plain(x)
    ensures var a := Login(id, node, ts, PrintNat(node') + "\n" + PrintInt(ts') + "\n" + x);
            var b := Login(id + "\n" + PrintNat(node) + "\n" + PrintInt(ts), node', ts', x);
            Encode(a) == Encode(b) && Signed(a) != Signed(b)
  {
    PlainIsTrimmed(id);
    PlainIsTrimmed(x);
    PrintedIsPlain(node');
    PrintedIsPlain(ts);
    assert PrintInt(node') == PrintNat(node');
    var nonce := PrintNat(node') + "\n" + PrintInt(ts') + "\n" + x;
    var device := id + "\n" + PrintNat(node) + "\n" + PrintInt(ts);
    JoinedIsTrimmed(PrintNat(node'), PrintInt(ts'), x);
    JoinedIsTrimmed(id, PrintNat(node), PrintInt(ts));
    assert |device| > |id|;
    Reassociate(id, PrintNat(node), PrintInt(ts), PrintNat(node'), PrintInt(ts'), x);
  }

  lemma JoinedIsTrimmed(a: string, b: string, c: string)
    requires a != "" && c != "" && PlainChar(a[0]) && PlainChar(c[|c| - 1])
    ensures TrimSpace(a + "\n" + b + "\n" + c) == a + "\n" + b + "\n" + c
  {
    var s := a + "\n" + b + "\n" + c;
    assert s[0] == a[0] && s[|s| - 1] == c[|c| - 1];
    PlainEndsAreTrimmed(s);
  }

  lemma Reassociate(id: string, n: string, t: string, n': string, t': string, x: string)
    ensures HEADER + id + "\n" + n + "\n" + t + "\n" + (n' + "\n" + t' + "\n" + x)
         == HEADER + (id + "\n" + n + "\n" + t) + "\n" + n' + "\n" + t' + "\n" + x
  {
    var tail := n' + "\n" + t' + "\n" + x;
    var head := HEADER + (id + "\n" + n + "\n" + t) + "\n";
    assert head == HEADER + id + "\n" + n + "\n" + t + "\n";
    assert head + n' + "\n" + t' + "\n" + x == head + tail;
  }
}
