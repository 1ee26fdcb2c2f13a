/**
 * String helpers the chat server and client share: JavaScript's default
 * string order (used by `Array.prototype.sort`), the conversation key of a
 * private chat, and the truncated preview stored in notifications.
 */
module Text {
  import opened Numbers

  /** JavaScript's `a <= b` on strings: lexicographic, character by character, a prefix first. */
  predicate LexLe(a: string, b: string)
    decreases |a|
  {
    |a| == 0 || (|b| > 0 && (a[0] < b[0] || (a[0] == b[0] && LexLe(a[1..], b[1..]))))
  }

  lemma {:induction false} LexLeTotal(a: string, b: string)
    ensures LexLe(a, b) || LexLe(b, a)
    decreases |a|
  {
    if |a| > 0 && |b| > 0 && a[0] == b[0] {
      LexLeTotal(a[1..], b[1..]);
    }
  }

  lemma {:induction false} LexLeAntisymmetric(a: string, b: string)
    requires LexLe(a, b) && LexLe(b, a)
    ensures a == b
    decreases |a|
  {
    if |a| > 0 {
      LexLeAntisymmetric(a[1..], b[1..]);
      assert a == [a[0]] + a[1..];
      assert b == [b[0]] + b[1..];
    }
  }

  const Separator: string := "-"

  /**
   * `[a, b].sort().join('-')`: the two participant ids, smaller first, joined
   * by a dash. A two-element sort swaps only when the second is strictly smaller.
   */
  function ConversationKey(a: string, b: string): (key: string)
    ensures (LexLe(a, b) && key == a + Separator + b) || (LexLe(b, a) && key == b + Separator + a)
  {
    LexLeTotal(a, b);
    if LexLe(a, b) then a + Separator + b else b + Separator + a
  }

  /** The key does not depend on who sends: `key(a, b) == key(b, a)`. */
  lemma ConversationKeySymmetric(a: string, b: string)
    ensures ConversationKey(a, b) == ConversationKey(b, a)
  {
    LexLeTotal(a, b);
    if LexLe(a, b) && LexLe(b, a) {
      LexLeAntisymmetric(a, b);
    }
  }

  /** Number of characters a notification keeps from a message. */
  const PreviewLength := 50

  const Ellipsis: string := "..."

  /** `message.substring(0, 50) + (message.length > 50 ? '...' : '')`. */
  function Preview(text: string): (p: string)
    ensures |p| <= PreviewLength + |Ellipsis|
    ensures |text| <= PreviewLength ==> p == text
    ensures |text| > PreviewLength ==> |p| == PreviewLength + |Ellipsis|
    ensures p[..Min(|text|, PreviewLength)] == text[..Min(|text|, PreviewLength)]
    ensures p[Min(|text|, PreviewLength)..] == (if |text| > PreviewLength then Ellipsis else "")
  {
    var kept := if |text| <= PreviewLength then text else text[..PreviewLength];
    kept + (if |text| > PreviewLength then Ellipsis else "")
  }
}
