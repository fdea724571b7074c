/** The clean-up `parse_receipt_text` applies to the language model's reply
    before decoding it as JSON: trim, drop a leading "```json" and then a
    leading "```", drop one trailing "```", trim again. */
module LlmService {

  /** Python's `str.isspace` on one character. */
  predicate IsSpace(c: char) {
    var n := c as int;
    (9 <= n <= 13) || (28 <= n <= 32) || n == 0x85 || n == 0xA0 || n == 0x1680 ||
    (0x2000 <= n <= 0x200A) || n == 0x2028 || n == 0x2029 || n == 0x202F ||
    n == 0x205F || n == 0x3000
  }

  predicate AllSpace(s: string) {
    forall i :: 0 <= i < |s| ==> IsSpace(s[i])
  }

  /** Neither starts nor ends with whitespace. */
  predicate Trimmed(s: string) {
    s == [] || (!IsSpace(s[0]) && !IsSpace(s[|s| - 1]))
  }

  /** `s.lstrip()`: the suffix left after the leading whitespace. */
  function TrimStart(s: string): (r: string)
    ensures |r| <= |s| && r == s[|s| - |r|..]
    ensures AllSpace(s[..|s| - |r|])
    ensures r == [] || !IsSpace(r[0])
  {
    if s != [] && IsSpace(s[0]) then
      var r := TrimStart(s[1..]);
      assert s[1..][..|s| - 1 - |r|] == s[1..|s| - |r|];
      r
    else s
  }

  /** `s.rstrip()`: the prefix left before the trailing whitespace. */
  function TrimEnd(s: string): (r: string)
    ensures |r| <= |s| && r == s[..|r|]
    ensures AllSpace(s[|r|..])
    ensures r == [] || !IsSpace(r[|r| - 1])
  {
    if s != [] && IsSpace(s[|s| - 1]) then
      var r := TrimEnd(s[..|s| - 1]);
      r
    else s
  }

  /** `s.strip()`: what is left of `s` between its leading and its trailing
      whitespace. */
  function Strip(s: string): (r: string)
    ensures Trimmed(r) && |r| <= |s|
  {
    var t := TrimStart(s);
    var r := TrimEnd(t);
    assert r != [] ==> r[0] == t[0];
    r
  }

  /** `s.startswith(p)` */
  predicate StartsWith(s: string, p: string) {
    |p| <= |s| && s[..|p|] == p
  }

  /** `s.endswith(p)` */
  predicate EndsWith(s: string, p: string) {
    |p| <= |s| && s[|s| - |p|..] == p
  }

  const Fence: string := "```"
  const JsonFence: string := "```json"

  /** `if content.startswith(p): content = content[len(p):]` */
  function DropPrefix(s: string, p: string): (r: string)
    ensures StartsWith(s, p) ==> s == p + r
    ensures !StartsWith(s, p) ==> r == s
  {
    if StartsWith(s, p) then s[|p|..] else s
  }

  /** `if content.endswith(p): content = content[:-len(p)]` */
  function DropSuffix(s: string, p: string): (r: string)
    ensures EndsWith(s, p) ==> s == r + p
    ensures !EndsWith(s, p) ==> r == s
  {
    if EndsWith(s, p) then s[..|s| - |p|] else s
  }

  /** The clean-up of llm_service.py:63-70, one rebinding of `content` per step. */
  function StripFences(content: string): (r: string)
    ensures Trimmed(r)
    ensures |r| <= |content|
  {
    Strip(Unfence(Strip(content)))
  }

  /** The three fence checks of llm_service.py:64-69, in order. */
  function Unfence(c: string): (r: string)
    ensures |r| <= |c|
  {
    DropSuffix(DropPrefix(DropPrefix(c, JsonFence), Fence), Fence)
  }

  // ---------------------------------------------------------------------
  // What stripping means

  lemma {:induction false} TrimStartAllSpace(s: string)
    requires AllSpace(s)
    ensures TrimStart(s) == []
  {
    if s != [] {
      TrimStartAllSpace(s[1..]);
    }
  }

  /** Leading whitespace in front of a text that starts with a non-space is
      exactly what `lstrip` removes. */
  lemma {:induction false} TrimStartSpaces(a: string, rest: string)
    requires AllSpace(a) && rest != [] && !IsSpace(rest[0])
    ensures TrimStart(a + rest) == rest
  {
    if a != [] {
      assert (a + rest)[1..] == a[1..] + rest;
      TrimStartSpaces(a[1..], rest);
    }
  }

  /** Trailing whitespace after a text that ends with a non-space is exactly
      what `rstrip` removes. */
  lemma {:induction false} TrimEndSpaces(rest: string, b: string)
    requires AllSpace(b) && rest != [] && !IsSpace(rest[|rest| - 1])
    ensures TrimEnd(rest + b) == rest
  {
    if b != [] {
      assert (rest + b)[..|rest + b| - 1] == rest + b[..|b| - 1];
      TrimEndSpaces(rest, b[..|b| - 1]);
    }
  }

  /** `strip` is characterised by its result: whitespace around a trimmed
      text is removed, and nothing else is. */
  lemma StripWraps(a: string, m: string, b: string)
    requires AllSpace(a) && AllSpace(b) && Trimmed(m)
    ensures Strip(a + m + b) == m
  {
    if m == [] {
      assert a + m + b == a + b;
      TrimStartAllSpace(a + b);
    } else {
      assert a + m + b == a + (m + b);
      TrimStartSpaces(a, m + b);
      TrimEndSpaces(m, b);
    }
  }

  /** A trimmed text is left as it is. */
  lemma StripOfTrimmed(s: string)
    requires Trimmed(s)
    ensures Strip(s) == s
  {
    assert [] + s + [] == s;
    StripWraps([], s, []);
  }

  /** Stripping twice is stripping once. */
  lemma StripIdempotent(s: string)
    ensures Strip(Strip(s)) == Strip(s)
  {
    StripOfTrimmed(Strip(s));
  }

  // ---------------------------------------------------------------------
  // What the fence clean-up does

  lemma JsonFenceIsFence(s: string)
    ensures StartsWith(s, JsonFence) ==> StartsWith(s, Fence)
  {
    if StartsWith(s, JsonFence) {
      assert s[..3] == s[..7][..3];
    }
  }

  /** A reply that, once trimmed, neither starts nor ends with "```" comes out
      trimmed and otherwise unchanged. */
  lemma UnfencedUnchanged(content: string)
    requires !StartsWith(Strip(content), Fence) && !EndsWith(Strip(content), Fence)
    ensures StripFences(content) == Strip(content)
  {
    JsonFenceIsFence(Strip(content));
    StripIdempotent(content);
  }

  /** A text that starts with neither a backtick nor whitespace does not
      start with a fence, whatever follows. */
  lemma NoFenceAhead(pre: string, rest: string)
    requires AllSpace(pre) && rest != [] && rest[0] != '`'
    ensures (pre + rest)[0] != '`'
    ensures !StartsWith(pre + rest, Fence) && !StartsWith(pre + rest, JsonFence)
  {
    var s := pre + rest;
    if pre != [] {
      assert s[0] == pre[0] && IsSpace(pre[0]);
    } else {
      assert s[0] == rest[0];
    }
    assert s[0] != Fence[0] && s[0] != JsonFence[0];
  }

  /** The fence checks on "```json" + text + "```", the text starting with
      neither a backtick nor a fence: both fences go. */
  lemma UnfenceJson(mid: string)
    requires mid != [] && mid[0] != '`'
    ensures Unfence(JsonFence + mid + Fence) == mid
  {
    var c := JsonFence + (mid + Fence);
    assert JsonFence + mid + Fence == c;
    assert DropPrefix(c, JsonFence) == mid + Fence;
    assert (mid + Fence)[0] == mid[0];
    assert DropPrefix(mid + Fence, Fence) == mid + Fence;
    assert DropSuffix(mid + Fence, Fence) == mid;
  }

  /** The fence checks on "```" + text + "```", the text starting with
      neither a backtick nor "json": both fences go. */
  lemma UnfencePlain(mid: string)
    requires mid != [] && mid[0] != '`' && mid[0] != 'j'
    ensures Unfence(Fence + mid + Fence) == mid
  {
    var c := Fence + (mid + Fence);
    assert Fence + mid + Fence == c;
    assert c[3] == mid[0];
    assert DropPrefix(c, JsonFence) == c;
    assert DropPrefix(c, Fence) == mid + Fence;
    assert DropSuffix(mid + Fence, Fence) == mid;
  }

  /** A fenced text starts and ends with a backtick, so it is trimmed. */
  lemma FencedTrimmed(opening: string, mid: string)
    requires opening == JsonFence || opening == Fence
    ensures Trimmed(opening + mid + Fence)
  {
    var inner := opening + mid + Fence;
    assert inner[0] == opening[0] == '`';
    assert inner[|inner| - 1] == Fence[2] == '`';
  }

  /** Whitespace, then a body that does not start with a backtick: the
      whole does not start with a backtick. */
  lemma MidStartsPlain(pre: string, body: string, post: string)
    requires AllSpace(pre) && body != [] && body[0] != '`'
    ensures pre + body + post != [] && (pre + body + post)[0] != '`'
  {
    assert pre + body + post == pre + (body + post);
    NoFenceAhead(pre, body + post);
  }

  /** Leading whitespace: the whole starts with neither a backtick nor "j". */
  lemma MidStartsSpace(pre: string, body: string, post: string)
    requires AllSpace(pre) && pre != []
    ensures pre + body + post != [] && (pre + body + post)[0] != '`' && (pre + body + post)[0] != 'j'
  {
    assert (pre + body + post)[0] == pre[0];
    assert IsSpace(pre[0]);
  }

  /** A JSON body wrapped as "```json ... ```", with any whitespace around the
      body and around the whole reply, comes out as the body. */
  lemma JsonFenceRemoved(ws1: string, pre: string, body: string, post: string, ws2: string)
    requires AllSpace(ws1) && AllSpace(pre) && AllSpace(post) && AllSpace(ws2)
    requires Trimmed(body) && body != [] && body[0] != '`'
    ensures StripFences(ws1 + (JsonFence + (pre + body + post) + Fence) + ws2) == body
  {
    var mid := pre + body + post;
    FencedTrimmed(JsonFence, mid);
    StripWraps(ws1, JsonFence + mid + Fence, ws2);
    MidStartsPlain(pre, body, post);
    UnfenceJson(mid);
    StripWraps(pre, body, post);
  }

  /** A body wrapped in plain "```" fences, with whitespace after the
      opening fence, comes out as the body. */
  lemma PlainFenceRemoved(ws1: string, pre: string, body: string, post: string, ws2: string)
    requires AllSpace(ws1) && AllSpace(pre) && AllSpace(post) && AllSpace(ws2)
    requires Trimmed(body) && body != [] && body[0] != '`' && pre != []
    ensures StripFences(ws1 + (Fence + (pre + body + post) + Fence) + ws2) == body
  {
    var mid := pre + body + post;
    FencedTrimmed(Fence, mid);
    StripWraps(ws1, Fence + mid + Fence, ws2);
    MidStartsSpace(pre, body, post);
    UnfencePlain(mid);
    StripWraps(pre, body, post);
  }

  lemma UnfenceDouble(body: string)
    requires body != [] && body[|body| - 1] != '`'
    ensures Unfence(JsonFence + Fence + body) == body
  {
    var s := JsonFence + (Fence + body);
    assert JsonFence + Fence + body == s;
    assert DropPrefix(s, JsonFence) == Fence + body;
    assert DropPrefix(Fence + body, Fence) == body;
    assert body[|body| - 1] != Fence[2];
    assert DropSuffix(body, Fence) == body;
  }

  lemma TrimmedAround(a: string, b: string)
    requires a != [] && !IsSpace(a[0]) && Trimmed(b) && b != []
    ensures Trimmed(a + b)
  {
    assert (a + b)[0] == a[0];
    assert (a + b)[|a + b| - 1] == b[|b| - 1];
  }

  lemma DoubleFencedTrimmed(body: string)
    requires Trimmed(body) && body != []
    ensures Strip(JsonFence + Fence + body) == JsonFence + Fence + body
  {
    TrimmedAround(JsonFence + Fence, body);
    StripOfTrimmed(JsonFence + Fence + body);
  }

  /** Both leading checks run in sequence: "```json```" loses both fences. */
  lemma LeadingChecksInSequence(body: string)
    requires Trimmed(body) && body != [] && body[|body| - 1] != '`'
    ensures StripFences(JsonFence + Fence + body) == body
  {
    DoubleFencedTrimmed(body);
    UnfenceDouble(body);
    StripOfTrimmed(body);
  }

  /** Two trailing fences after a body that starts with something other
      than a backtick: no opening fence is seen and one fence goes. */
  lemma UnfenceTrailingPair(body: string)
    requires body != [] && body[0] != '`'
    ensures Unfence(body + Fence + Fence) == body + Fence
  {
    var bf := body + Fence;
    var s := bf + Fence;
    assert s[..|JsonFence|][0] == body[0];
    assert DropPrefix(s, JsonFence) == s;
    assert s[..|Fence|][0] == body[0];
    assert DropPrefix(s, Fence) == s;
    assert s[|s| - |Fence|..] == Fence && s[..|s| - |Fence|] == bf;
  }

  /** A trimmed body followed by fences is still trimmed. */
  lemma FencesKeepTrimmed(body: string)
    requires Trimmed(body) && body != []
    ensures Trimmed(body + Fence) && Trimmed(body + Fence + Fence)
  {
    var bf := body + Fence;
    var s := bf + Fence;
    assert bf[0] == body[0] && bf[|bf| - 1] == '`';
    assert s[0] == body[0] && s[|s| - 1] == '`';
  }

  /** At most one trailing fence is removed. */
  lemma OneTrailingFenceRemoved(body: string)
    requires Trimmed(body) && body != [] && body[0] != '`'
    ensures StripFences(body + Fence + Fence) == body + Fence
  {
    FencesKeepTrimmed(body);
    StripOfTrimmed(body + Fence + Fence);
    UnfenceTrailingPair(body);
    StripOfTrimmed(body + Fence);
  }
}
