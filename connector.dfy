/**
 * The `DBConnector` a database talks through.  The network is replaced by
 * a script: each `say` or `call` consumes the next scripted answer, which
 * is either a failure or the bytes of a reply (from the start of the reply
 * header); an exhausted script fails.  Every message handed over is logged.
 */
module Connection {
  import opened Bson
  import opened Wire

  datatype Reply = Fail | Bytes(data: seq<byte>)

  /** The answer the next request gets. */
  function Answer(script: seq<Reply>): Reply
  {
    if script == [] then Fail else script[0]
  }

  /** The script after one request. */
  function Rest(script: seq<Reply>): (rest: seq<Reply>)
    ensures script != [] ==> |rest| == |script| - 1
  {
    if script == [] then [] else script[1..]
  }

  /** What saying several messages in turn does: sent, the script left, and whether all succeeded. */
  datatype Delivery = Delivery(sent: seq<Message>, script: seq<Reply>, ok: bool)

  /** `say` each message in order, stopping after the first failure (which propagates). */
  function Deliver(msgs: seq<Message>, script: seq<Reply>): (d: Delivery)
    ensures |d.sent| <= |msgs| && d.sent == msgs[..|d.sent|]
    ensures d.ok ==> d.sent == msgs
  {
    if msgs == [] then Delivery([], script, true)
    else if Answer(script).Fail? then Delivery([msgs[0]], Rest(script), false)
    else
      var d := Deliver(msgs[1..], Rest(script));
      Delivery([msgs[0]] + d.sent, d.script, d.ok)
  }

  /** Delivering two runs of messages is delivering the first, then the second if the first all went through. */
  lemma {:induction false} DeliverAppend(a: seq<Message>, b: seq<Message>, script: seq<Reply>)
    ensures var da := Deliver(a, script);
      Deliver(a + b, script) ==
        if da.ok then
          var db := Deliver(b, da.script);
          Delivery(da.sent + db.sent, db.script, db.ok)
        else da
  {
    if a == [] {
      assert a + b == b;
    } else {
      assert (a + b)[1..] == a[1..] + b;
      assert (a + b)[0] == a[0];
      if Answer(script).Bytes? {
        DeliverAppend(a[1..], b, Rest(script));
      }
    }
  }

  lemma LogAssoc(a: seq<Message>, b: seq<Message>, c: seq<Message>)
    ensures a + b + c == a + (b + c)
  {
  }

  class Connector {
    /** The answers still to come. */
    var script: seq<Reply>
    /** Every message handed to the connector, oldest first. */
    var sent: seq<Message>

    constructor (answers: seq<Reply>)
      ensures script == answers && sent == []
    {
      script := answers;
      sent := [];
    }

    /** `say`: sends a message that expects no reply; fails as the script says. */
    method Say(m: Message) returns (r: Result<()>)
      modifies this
      ensures sent == old(sent) + [m] && script == Rest(old(script))
      ensures r == if Answer(old(script)).Fail? then Err(ConnectorFailure) else Ok(())
    {
      sent := sent + [m];
      var answer := Answer(script);
      script := Rest(script);
      if answer.Fail? {
        return Err(ConnectorFailure);
      }
      return Ok(());
    }

    /** `call`: sends a message and returns the reply's bytes, or fails. */
    method Call(m: Message) returns (r: Result<seq<byte>>)
      modifies this
      ensures sent == old(sent) + [m] && script == Rest(old(script))
      ensures r == match Answer(old(script)) case Fail => Err(ConnectorFailure) case Bytes(data) => Ok(data)
    {
      sent := sent + [m];
      var answer := Answer(script);
      script := Rest(script);
      match answer
      case Fail =>
        return Err(ConnectorFailure);
      case Bytes(data) =>
        return Ok(data);
    }
  }
}
