/**
 The text the server fans out for one inbound text frame:
 "<timestamp> [<sender>] ===>>> <payload>". Timestamp and sender identity are
 opaque strings (the JVM's Date.toString() and Channel.toString()).
 */
module BroadcastFormat {
  import opened Wrappers

  const Separator := " ===>>> "

  /** Everything the broadcast text carries before the payload. */
  function Prefix(timestamp: string, sender: string): string {
    timestamp + " [" + sender + "]" + Separator
  }

  /** The outbound text: the fixed prefix followed by the unchanged payload. */
  function Format(timestamp: string, sender: string, text: string): (m: string)
    ensures |m| == |Prefix(timestamp, sender)| + |text|
    ensures m[..|Prefix(timestamp, sender)|] == Prefix(timestamp, sender)
    ensures m[|Prefix(timestamp, sender)|..] == text
  {
    Prefix(timestamp, sender) + text
  }

  /** The payload of a broadcast text, if it was formatted for this timestamp and sender. */
  function RecoverText(timestamp: string, sender: string, m: string): (r: Option<string>)
    ensures r.Some? ==> Format(timestamp, sender, r.value) == m
    ensures r.None? ==> forall text :: Format(timestamp, sender, text) != m
  {
    var p := Prefix(timestamp, sender);
    if |p| <= |m| && m[..|p|] == p then
      assert m == p + m[|p|..];
      Some(m[|p|..])
    else None
  }

  /** The original payload is recovered from every formatted text. */
  lemma FormatRoundTrip(timestamp: string, sender: string, text: string)
    ensures RecoverText(timestamp, sender, Format(timestamp, sender, text)) == Some(text)
  {
  }

  /** Two payloads from the same sender at the same timestamp give the same text only if equal. */
  lemma FormatInjective(timestamp: string, sender: string, t1: string, t2: string)
    requires Format(timestamp, sender, t1) == Format(timestamp, sender, t2)
    ensures t1 == t2
  {
  }
}
