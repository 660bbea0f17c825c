/** The loop that serves one client's connection: what it forwards to the balancer, in which order,
    and when it tells the balancer that the client is gone. */
module ClientLoop {
  datatype Incoming = Ping | Payload(text: string) | ClientClose

  datatype Outgoing = Data(text: string) | CloseWithCode | BareClose

  /** One turn of the loop. `delivered` and `forwarded` are the outcomes of sends. A connection that
      has nothing more to read takes no turn: the loop then waits for the balancer. */
  datatype Event =
    | FromBalancer(out: Outgoing, delivered: bool)
    | BalancerGone                        // the outbound channel is closed or lags
    | FromClient(incoming: Incoming, forwarded: bool)
    | ClientGone                          // reading from the connection failed

  /** What the balancer receives from the connection. */
  datatype Notice = Text(text: string) | Closed | Ended

  /** A turn after which the loop ends. */
  predicate Breaks(e: Event) {
    match e
    case FromBalancer(out, delivered) => !delivered || out.CloseWithCode?
    case BalancerGone => true
    case FromClient(_, forwarded) => !forwarded
    case ClientGone => true
  }

  /** The server's own close reached the client. */
  predicate SentClose(e: Event) {
    e.FromBalancer? && e.out.CloseWithCode? && e.delivered
  }

  function NoticeOf(e: Event): seq<Notice> {
    if e.FromClient? && e.forwarded then
      match e.incoming
      case Ping => []
      case Payload(text) => [Text(text)]
      case ClientClose => [Closed]
    else []
  }

  // ---------------------------------------------------------------- specification

  /** The number of turns that the loop takes. */
  function Turns(events: seq<Event>): (n: nat)
    ensures n <= |events|
    ensures forall i :: 0 <= i < n - 1 ==> !Breaks(events[i])
    ensures n < |events| ==> n > 0 && Breaks(events[n - 1])
  {
    if events == [] then 0
    else if Breaks(events[0]) then 1
    else
      var rest := Turns(events[1..]);
      assert forall i :: 0 < i < rest ==> events[i] == events[1..][i - 1];
      assert 0 < rest ==> events[rest] == events[1..][rest - 1];
      1 + rest
  }

  predicate Finished(events: seq<Event>) {
    Turns(events) > 0 && Breaks(events[Turns(events) - 1])
  }

  function Notices(events: seq<Event>): seq<Notice> {
    if events == [] then [] else Notices(events[..|events| - 1]) + NoticeOf(events[|events| - 1])
  }

  /** While the rest of the outbound messages is drained, a close can still go out. */
  predicate DrainSendsClose(drain: seq<(Outgoing, bool)>) {
    drain != [] && drain[0].1 && (drain[0].0.CloseWithCode? || DrainSendsClose(drain[1..]))
  }

  predicate ServerClosed(events: seq<Event>, drain: seq<(Outgoing, bool)>) {
    (Turns(events) > 0 && SentClose(events[Turns(events) - 1])) || DrainSendsClose(drain)
  }

  // ---------------------------------------------------------------- the loop

  method DrainOutbound(drain: seq<(Outgoing, bool)>) returns (sentClose: bool)
    ensures sentClose <==> DrainSendsClose(drain)
  {
    sentClose := false;
    var i := 0;
    while i < |drain|
      invariant 0 <= i <= |drain| && !sentClose
      invariant DrainSendsClose(drain) <==> DrainSendsClose(drain[i..])
    {
      assert drain[i..][1..] == drain[i + 1..];
      if !drain[i].1 {
        return;
      }
      if drain[i].0.CloseWithCode? {
        sentClose := true;
        return;
      }
      i := i + 1;
    }
  }

  /** Serves a connection that goes through the given turns; `drain` is what is left in the
      outbound channel when the loop ends. */
  method Serve(events: seq<Event>, drain: seq<(Outgoing, bool)>, channelClosed: bool)
    returns (notices: seq<Notice>)
    ensures notices == Notices(events[..Turns(events)]) +
                       if Finished(events) && !ServerClosed(events, drain) && !channelClosed then [Ended] else []
  {
    notices := [];
    var alreadySentClose := false;
    var running := true;
    var i := 0;
    while running && i < |events|
      invariant 0 <= i <= |events| && ServedUpTo(events, i, running, alreadySentClose, notices)
      decreases |events| - i
    {
      ghost var before := notices;
      var e := events[i];
      match e {
        case FromBalancer(out, delivered) =>
          if !delivered {
            running := false;
          } else if out.CloseWithCode? {
            alreadySentClose := true;
            running := false;
          }
        case BalancerGone =>
          running := false;
        case FromClient(incoming, forwarded) =>
          if !forwarded {
            running := false;
          } else if incoming.Payload? {
            notices := notices + [Text(incoming.text)];
          } else if incoming.ClientClose? {
            notices := notices + [Closed];
          }
        case ClientGone =>
          running := false;
      }
      assert notices == before + NoticeOf(e);
      ServedOneMore(events, i, before);
      i := i + 1;
    }
    if running {
      return;
    }
    var drained := DrainOutbound(drain);
    alreadySentClose := alreadySentClose || drained;
    if !alreadySentClose && !channelClosed {
      notices := notices + [Ended];
    }
  }

  /** After `i` turns: what was forwarded, whether the loop goes on, and if not, whether the server's
      close ended it. */
  ghost predicate ServedUpTo(events: seq<Event>, i: nat, running: bool, sentClose: bool, notices: seq<Notice>)
    requires i <= |events|
  {
    && notices == Notices(events[..i])
    && (running ==> !sentClose && forall j :: 0 <= j < i ==> !Breaks(events[j]))
    && (!running ==> i == Turns(events) > 0 && Breaks(events[i - 1]) && (sentClose <==> SentClose(events[i - 1])))
  }

  lemma ServedOneMore(events: seq<Event>, i: nat, notices: seq<Notice>)
    requires i < |events| && ServedUpTo(events, i, true, false, notices)
    ensures ServedUpTo(events, i + 1, !Breaks(events[i]), SentClose(events[i]), notices + NoticeOf(events[i]))
  {
    NoticesOneMore(events, i);
    TurnsBeyond(events, i);
  }

  lemma NoticesOneMore(events: seq<Event>, i: nat)
    requires i < |events|
    ensures Notices(events[..i + 1]) == Notices(events[..i]) + NoticeOf(events[i])
  {
    assert events[..i + 1][..i] == events[..i];
  }

  lemma {:induction false} TurnsBeyond(events: seq<Event>, i: nat)
    requires i < |events| && forall j :: 0 <= j < i ==> !Breaks(events[j])
    ensures Turns(events) > i
    ensures Breaks(events[i]) ==> Turns(events) == i + 1
  {
    if i > 0 {
      assert forall j :: 0 <= j < i - 1 ==> events[1..][j] == events[j + 1];
      TurnsBeyond(events[1..], i - 1);
    }
  }

  // ---------------------------------------------------------------- what the balancer can rely on

  lemma {:induction false} NoticesAreNotEnded(events: seq<Event>, k: nat)
    requires k < |Notices(events)|
    ensures !Notices(events)[k].Ended?
    decreases |events|
  {
    var before := events[..|events| - 1];
    if k < |Notices(before)| {
      NoticesAreNotEnded(before, k);
    }
  }

  /** The balancer hears of the end of a connection at most once and last. */
  lemma EndedComesLast(events: seq<Event>, drain: seq<(Outgoing, bool)>, channelClosed: bool, k: nat)
    requires k < |Notices(events[..Turns(events)])|
    ensures !Notices(events[..Turns(events)])[k].Ended?
  {
    NoticesAreNotEnded(events[..Turns(events)], k);
  }

  /** What the client sent, without pings, in order. */
  function SentByClient(events: seq<Event>): seq<Incoming> {
    if events == [] then []
    else
      var last := events[|events| - 1];
      SentByClient(events[..|events| - 1]) +
      if last.FromClient? && !last.incoming.Ping? then [last.incoming] else []
  }

  /** A message is heard as a text, and the client's own close as a close. */
  ghost predicate Hears(notice: Notice, sent: Incoming) {
    match sent
    case Payload(text) => notice.Text? && notice.text == text
    case ClientClose => notice.Closed?
    case Ping => false
  }

  /** Every message of the client before the connection broke and every close of its own is forwarded,
      in order, and nothing else. */
  lemma {:induction false} ForwardsInOrder(events: seq<Event>)
    requires forall i :: 0 <= i < |events| ==> !Breaks(events[i])
    ensures |Notices(events)| == |SentByClient(events)|
    ensures forall k :: 0 <= k < |Notices(events)| ==> Hears(Notices(events)[k], SentByClient(events)[k])
    decreases |events|
  {
    if events != [] {
      ForwardsInOrder(events[..|events| - 1]);
    }
  }

  /** The loop ends with the first turn in which the balancer is gone, a send or the reading fails, or the
      server's close with a code goes out; not with a close of the client or one without a code. */
  lemma EndsExactly(events: seq<Event>, i: nat)
    requires i < |events| && forall j :: 0 <= j < i ==> !Breaks(events[j])
    ensures Turns(events) == i + 1 && Finished(events) <==>
              match events[i]
              case FromBalancer(out, delivered) => delivered ==> out == CloseWithCode
              case FromClient(_, forwarded) => !forwarded
              case _ => true
  {
    TurnsBeyond(events, i);
  }

  /** While the channel is drained, the server's close goes out exactly if some close with a code comes
      before every failed send. */
  lemma {:induction false} DrainClosesExactly(drain: seq<(Outgoing, bool)>)
    ensures DrainSendsClose(drain) <==>
            exists k :: 0 <= k < |drain| && drain[k].0 == CloseWithCode && forall j :: 0 <= j <= k ==> drain[j].1
  {
    if drain != [] {
      var rest := drain[1..];
      DrainClosesExactly(rest);
      if DrainSendsClose(rest) && drain[0].1 {
        var k :| 0 <= k < |rest| && rest[k].0 == CloseWithCode && forall j :: 0 <= j <= k ==> rest[j].1;
        assert forall j :: 0 < j <= k + 1 ==> drain[j] == rest[j - 1];
        assert drain[k + 1].0 == CloseWithCode;
      }
      if exists k :: 0 <= k < |drain| && drain[k].0 == CloseWithCode && forall j :: 0 <= j <= k ==> drain[j].1 {
        var k :| 0 <= k < |drain| && drain[k].0 == CloseWithCode && forall j :: 0 <= j <= k ==> drain[j].1;
        if k > 0 {
          assert forall j :: 0 <= j < k ==> rest[j] == drain[j + 1];
          assert rest[k - 1].0 == CloseWithCode;
        }
      }
    }
  }

  /** A client that the server closes is never reported as gone, neither by itself nor by the loop:
      all that the balancer ever hears from it are its texts. */
  lemma KickedClientIsNotReported(before: seq<Event>, drain: seq<(Outgoing, bool)>)
    requires forall i :: 0 <= i < |before| ==>
               !Breaks(before[i]) && !(before[i].FromClient? && before[i].incoming.ClientClose?)
    ensures var events := before + [FromBalancer(CloseWithCode, true)];
            && Turns(events) == |events| && ServerClosed(events, drain)
            && forall k :: 0 <= k < |Notices(events)| ==> Notices(events)[k].Text?
  {
    var events := before + [FromBalancer(CloseWithCode, true)];
    assert forall j :: 0 <= j < |before| ==> events[j] == before[j];
    TurnsBeyond(events, |before|);
    assert events[..|before|] == before;
    assert Notices(events) == Notices(before) + [];
    OnlyTexts(before);
  }

  lemma {:induction false} OnlyTexts(events: seq<Event>)
    requires forall i :: 0 <= i < |events| ==> !(events[i].FromClient? && events[i].incoming.ClientClose?)
    ensures forall k :: 0 <= k < |Notices(events)| ==> Notices(events)[k].Text?
    decreases |events|
  {
    if events != [] {
      OnlyTexts(events[..|events| - 1]);
    }
  }
}
