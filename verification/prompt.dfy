/**
 The prompt formatter of the batch-inference script (`format_prompt`): the
 chat template of the Phi-3.5-mini-instruct model, a system section, a user
 section and an opened assistant section, each tag on its own line and
 each message closed by the end tag.
 */
module Prompt {
  import opened Common

  const SystemTag: string := "<|system|>\n"
  const UserTag: string := "<|user|>\n"
  const EndTag: string := "<|end|>\n"
  const AssistantTag: string := "<|assistant|>\n"

  /** The system message used when the caller gives none. */
  const DefaultSystemMessage: string := DefaultRole + DefaultInstruction

  /** The two sentences of the default system message. */
  const DefaultRole: string := "You are a helpful assistant. "
  const DefaultInstruction: string := "Provide clear and concise responses."

  /** The system message in effect: an explicit one, even an empty one,
      wins over the default; only an absent one is replaced. */
  function SystemMessage(system: Option<string>): string {
    match system
    case Some(s) => s
    case None => DefaultSystemMessage
  }

  /** Everything in front of the user message. */
  function Header(system: Option<string>): string {
    SystemTag + SystemMessage(system) + EndTag + UserTag
  }

  /** Everything after the user message. */
  const Trailer: string := EndTag + AssistantTag

  /** The header piece by piece: the system tag, the system message in
      effect, then the end and user tags. */
  lemma HeaderLayout(system: Option<string>)
    ensures var h := Header(system);
            var m := SystemMessage(system);
            && |h| == |SystemTag| + |m| + |EndTag| + |UserTag|
            && h[..|SystemTag|] == SystemTag
            && h[|SystemTag|..|SystemTag| + |m|] == m
            && h[|SystemTag| + |m|..] == EndTag + UserTag
  {
    Parts4(Header(system), SystemTag, SystemMessage(system), EndTag, UserTag);
  }

  /** The pieces of a four-part concatenation, in place. */
  lemma Parts4<T>(s: seq<T>, a: seq<T>, b: seq<T>, c: seq<T>, d: seq<T>)
    requires s == a + b + c + d
    ensures |s| == |a| + |b| + |c| + |d|
    ensures s[..|a|] == a && s[|a|..|a| + |b|] == b && s[|a| + |b|..] == c + d
  {
    assert s == a + (b + (c + d));
  }

  /** The prompt for `user` under the system message `system`: the header,
      the user message, the trailer. Neither message is escaped: tags inside
      them are copied through. */
  function FormatPrompt(user: string, system: Option<string>): (p: string)
    ensures |p| == |Header(system)| + |user| + |Trailer|
    ensures p[..|Header(system)|] == Header(system)
    ensures p[|Header(system)|..|Header(system)| + |user|] == user
    ensures p[|p| - |Trailer|..] == Trailer
  {
    Slice3(Header(system), user, Trailer);
    Header(system) + user + Trailer
  }

  /** Inverse of the formatter for a known system message: the user
      message, if `prompt` has the template's shape around one. */
  function UserMessage(prompt: string, system: Option<string>): (u: Option<string>)
  {
    var h := Header(system);
    if |prompt| >= |h| + |Trailer|
       && prompt[..|h|] == h
       && prompt[|prompt| - |Trailer|..] == Trailer
    then Some(prompt[|h|..|prompt| - |Trailer|])
    else None
  }

  /** Reading the user message back out of a prompt gives exactly the
      message that was formatted, and a prompt yields `u` only if it is the
      formatting of `u`. */
  lemma UserMessageInvertsFormat(prompt: string, user: string, system: Option<string>)
    ensures UserMessage(prompt, system) == Some(user) <==> FormatPrompt(user, system) == prompt
  {
    var h := Header(system);
    if FormatPrompt(user, system) == prompt {
      Slice3(h, user, Trailer);
    }
    if UserMessage(prompt, system) == Some(user) {
      Split3(prompt, |h|, |prompt| - |Trailer|);
    }
  }

  lemma Slice3<T>(a: seq<T>, b: seq<T>, c: seq<T>)
    ensures (a + b + c)[..|a|] == a
    ensures (a + b + c)[|a|..|a + b + c| - |c|] == b
    ensures (a + b + c)[|a + b + c| - |c|..] == c
  {
  }

  lemma Split3<T>(s: seq<T>, i: nat, j: nat)
    requires i <= j <= |s|
    ensures s == s[..i] + s[i..j] + s[j..]
  {
  }

  /** Under one system message, different user messages give different
      prompts. */
  lemma FormatPromptInjective(u1: string, u2: string, system: Option<string>)
    requires FormatPrompt(u1, system) == FormatPrompt(u2, system)
    ensures u1 == u2
  {
    UserMessageInvertsFormat(FormatPrompt(u1, system), u1, system);
    UserMessageInvertsFormat(FormatPrompt(u1, system), u2, system);
  }

  /** Because tags are not escaped, a system message that itself contains
      the end and user tags produces the same prompt as a different split
      of the text between the two messages: the prompt alone does not
      determine which message said what. */
  lemma TagsAreNotEscaped(a: string, b: string, c: string)
    ensures FormatPrompt(c, Some(a + EndTag + UserTag + b))
         == FormatPrompt(b + EndTag + UserTag + c, Some(a))
  {
    var s1 := a + EndTag + UserTag + b;
    var u2 := b + EndTag + UserTag + c;
    calc {
      FormatPrompt(c, Some(s1));
      SystemTag + s1 + EndTag + UserTag + c + Trailer;
      { assert SystemTag + s1 + EndTag + UserTag + c
            == SystemTag + a + EndTag + UserTag + u2; }
      SystemTag + a + EndTag + UserTag + u2 + Trailer;
      FormatPrompt(u2, Some(a));
    }
  }

  /** The user message is not escaped either: the prompt for a user message
      that contains the end and assistant tags begins with the complete
      prompt for the text in front of them. An assistant turn is thus opened
      inside the user section, and a second one still follows at the end. */
  lemma UserTagsAreNotEscaped(x: string, y: string, system: Option<string>)
    ensures |FormatPrompt(x, system)| < |FormatPrompt(x + Trailer + y, system)|
    ensures FormatPrompt(x + Trailer + y, system)[..|FormatPrompt(x, system)|] == FormatPrompt(x, system)
  {
    var h := Header(system);
    Regroup(h, x, Trailer, y);
    assert FormatPrompt(x, system) == h + x + Trailer;
    assert FormatPrompt(x + Trailer + y, system) == h + (x + Trailer + y) + Trailer;
  }

  lemma Regroup<T>(h: seq<T>, x: seq<T>, t: seq<T>, y: seq<T>)
    requires |t| > 0
    ensures |h + x + t| < |h + (x + t + y) + t|
    ensures (h + (x + t + y) + t)[..|h + x + t|] == h + x + t
  {
    assert h + (x + t + y) + t == (h + x + t) + (y + t);
  }

  /** `t` occurs in `s` starting at position `i`. */
  predicate OccursAt<T(==)>(s: seq<T>, i: int, t: seq<T>) {
    0 <= i && i + |t| <= |s| && s[i..i + |t|] == t
  }

  /** `c` does not occur in `s`. */
  predicate Lacks<T(==)>(s: seq<T>, c: T) {
    forall k :: 0 <= k < |s| ==> s[k] != c
  }

  /** A marker of the template: at least three long, opened by `c`, and
      without any other `c`. */
  predicate Marker<T(==)>(t: seq<T>, c: T) {
    |t| >= 3 && t[0] == c && forall k :: 1 <= k < |t| ==> t[k] != c
  }

  /** Every tag of the template opens with `<` and has no other, and the
      four tags differ in their third character. */
  lemma TagsAreMarkers()
    ensures Marker(SystemTag, '<') && Marker(EndTag, '<') && Marker(UserTag, '<') && Marker(AssistantTag, '<')
    ensures SystemTag[2] == 's' && EndTag[2] == 'e' && UserTag[2] == 'u' && AssistantTag[2] == 'a'
  {
  }

  /** In a template filled with messages free of `c`, `c` occurs only where
      a marker starts. */
  lemma OpenersAt<T>(p: seq<T>, h: seq<T>, t: seq<T>, st: seq<T>, m: seq<T>, et: seq<T>, ut: seq<T>,
                         u: seq<T>, at: seq<T>, c: T)
    requires p == h + u + t && h == st + m + et + ut && t == et + at
    requires Marker(st, c) && Marker(et, c) && Marker(ut, c) && Marker(at, c)
    requires Lacks(m, c) && Lacks(u, c)
    ensures forall k :: 0 <= k < |p| && p[k] == c ==>
              k == 0 || k == |st| + |m| || k == |st| + |m| + |et| || k == |h| + |u| || k == |h| + |u| + |et|
  {
    forall k | 0 <= k < |p| && p[k] == c
      ensures k == 0 || k == |st| + |m| || k == |st| + |m| + |et| || k == |h| + |u| || k == |h| + |u| + |et|
    {
      if k < |h| {
        assert p[k] == h[k];
        if k < |st| {
          assert st[k] == c;
        } else if k < |st| + |m| {
          assert false;
        } else if k < |st| + |m| + |et| {
          assert et[k - |st| - |m|] == c;
        } else {
          assert ut[k - |st| - |m| - |et|] == c;
        }
      } else if k < |h| + |u| {
        assert false;
      } else if k < |h| + |u| + |et| {
        assert et[k - |h| - |u|] == c;
      } else {
        assert at[k - |h| - |u| - |et|] == c;
      }
    }
  }

  /** The third element after each opener belongs to the marker there. */
  lemma MarkerThirds<T>(p: seq<T>, h: seq<T>, t: seq<T>, st: seq<T>, m: seq<T>, et: seq<T>, ut: seq<T>,
                        u: seq<T>, at: seq<T>)
    requires p == h + u + t && h == st + m + et + ut && t == et + at
    requires |st| >= 3 && |et| >= 3 && |ut| >= 3 && |at| >= 3
    ensures p[2] == st[2]
    ensures p[|st| + |m| + 2] == et[2]
    ensures p[|st| + |m| + |et| + 2] == ut[2]
    ensures p[|h| + |u| + 2] == et[2]
    ensures p[|h| + |u| + |et| + 2] == at[2]
  {
    assert p[|st| + |m| + 2] == h[|st| + |m| + 2];
    assert p[|st| + |m| + |et| + 2] == h[|st| + |m| + |et| + 2];
  }

  /** The system marker occurs in such a template only at its start. */
  lemma SystemOnce<T>(p: seq<T>, h: seq<T>, t: seq<T>, st: seq<T>, m: seq<T>, et: seq<T>,
                   ut: seq<T>, u: seq<T>, at: seq<T>, c: T)
    requires p == h + u + t && h == st + m + et + ut && t == et + at
    requires Marker(st, c) && Marker(et, c) && Marker(ut, c) && Marker(at, c)
    requires Lacks(m, c) && Lacks(u, c)
    requires st[2] != et[2] && st[2] != ut[2] && st[2] != at[2]
    ensures forall i :: OccursAt(p, i, st) <==> i == 0
  {
    OpenersAt(p, h, t, st, m, et, ut, u, at, c);
    MarkerThirds(p, h, t, st, m, et, ut, u, at);
    assert p[..|st|] == st by {
      assert p[..|st|] == h[..|st|];
      Parts4(h, st, m, et, ut);
    }
    forall i | OccursAt(p, i, st) ensures i == 0 {
      assert p[i] == st[0] && p[i + 2] == st[2];
    }
  }

  /** The user marker occurs in such a template only after the system
      message and the end marker. */
  lemma UserOnce<T>(p: seq<T>, h: seq<T>, t: seq<T>, st: seq<T>, m: seq<T>, et: seq<T>,
                   ut: seq<T>, u: seq<T>, at: seq<T>, c: T)
    requires p == h + u + t && h == st + m + et + ut && t == et + at
    requires Marker(st, c) && Marker(et, c) && Marker(ut, c) && Marker(at, c)
    requires Lacks(m, c) && Lacks(u, c)
    requires ut[2] != st[2] && ut[2] != et[2] && ut[2] != at[2]
    ensures forall i :: OccursAt(p, i, ut) <==> i == |st| + |m| + |et|
  {
    OpenersAt(p, h, t, st, m, et, ut, u, at, c);
    MarkerThirds(p, h, t, st, m, et, ut, u, at);
    assert p[|st| + |m| + |et|..|st| + |m| + |et| + |ut|] == ut by {
      Parts4(h, st, m, et, ut);
      assert p[..|h|] == h;
      assert h[|h| - |ut|..] == ut;
    }
    forall i | OccursAt(p, i, ut) ensures i == |st| + |m| + |et| {
      assert p[i] == ut[0] && p[i + 2] == ut[2];
    }
  }

  /** The assistant marker occurs in such a template only at its end. */
  lemma AssistantOnce<T>(p: seq<T>, h: seq<T>, t: seq<T>, st: seq<T>, m: seq<T>, et: seq<T>,
                   ut: seq<T>, u: seq<T>, at: seq<T>, c: T)
    requires p == h + u + t && h == st + m + et + ut && t == et + at
    requires Marker(st, c) && Marker(et, c) && Marker(ut, c) && Marker(at, c)
    requires Lacks(m, c) && Lacks(u, c)
    requires at[2] != st[2] && at[2] != et[2] && at[2] != ut[2]
    ensures forall i :: OccursAt(p, i, at) <==> i == |p| - |at|
  {
    OpenersAt(p, h, t, st, m, et, ut, u, at, c);
    MarkerThirds(p, h, t, st, m, et, ut, u, at);
    assert p[|p| - |at|..] == at by {
      assert p == (h + u + et) + at;
    }
    forall i | OccursAt(p, i, at) ensures i == |p| - |at| {
      assert p[i] == at[0] && p[i + 2] == at[2];
    }
  }

  /** For messages without `<`, such as the default system message, the
      system, user and assistant tags each occur exactly once in the prompt,
      in that order. */
  lemma MarkersOnce(user: string, system: Option<string>)
    requires Lacks(user, '<') && Lacks(SystemMessage(system), '<')
    ensures var p := FormatPrompt(user, system);
            && (forall i :: OccursAt(p, i, SystemTag) <==> i == 0)
            && (forall i :: OccursAt(p, i, UserTag) <==> i == |SystemTag| + |SystemMessage(system)| + |EndTag|)
            && (forall i :: OccursAt(p, i, AssistantTag) <==> i == |p| - |AssistantTag|)
            && |SystemTag| <= |SystemTag| + |SystemMessage(system)| + |EndTag|
            && |SystemTag| + |SystemMessage(system)| + |EndTag| + |UserTag| <= |p| - |AssistantTag|
  {
    var p, h, m := FormatPrompt(user, system), Header(system), SystemMessage(system);
    TagsAreMarkers();
    SystemOnce(p, h, Trailer, SystemTag, m, EndTag, UserTag, user, AssistantTag, '<');
    UserOnce(p, h, Trailer, SystemTag, m, EndTag, UserTag, user, AssistantTag, '<');
    AssistantOnce(p, h, Trailer, SystemTag, m, EndTag, UserTag, user, AssistantTag, '<');
  }

  /** Concatenating two sequences without `c` gives none. */
  lemma LacksAppend<T>(a: seq<T>, b: seq<T>, c: T)
    requires Lacks(a, c) && Lacks(b, c)
    ensures Lacks(a + b, c)
  {
  }

  /** The first sentence of the default system message has no `<`. */
  lemma RoleLacks()
    ensures Lacks(DefaultRole, '<')
  {
    forall k | 0 <= k < |DefaultRole| ensures DefaultRole[k] != '<' {
      assert DefaultRole[k] in DefaultRole;
    }
  }

  /** The second sentence of the default system message has no `<`. */
  lemma InstructionLacks()
    ensures Lacks(DefaultInstruction, '<')
  {
    forall k | 0 <= k < |DefaultInstruction| ensures DefaultInstruction[k] != '<' {
      assert DefaultInstruction[k] in DefaultInstruction;
    }
  }

  /** The default system message contains no `<`. */
  lemma DefaultLacks()
    ensures Lacks(SystemMessage(None), '<')
  {
    RoleLacks();
    InstructionLacks();
    LacksAppend(DefaultRole, DefaultInstruction, '<');
  }

  /** The prompts the runner builds use the default system message: for a
      user message without `<`, the system, user and assistant tags each
      occur exactly once, in that order. */
  lemma MarkersOnceDefault(user: string)
    requires Lacks(user, '<')
    ensures var p := FormatPrompt(user, None);
            && (forall i :: OccursAt(p, i, SystemTag) <==> i == 0)
            && (forall i :: OccursAt(p, i, UserTag) <==> i == |SystemTag| + |DefaultSystemMessage| + |EndTag|)
            && (forall i :: OccursAt(p, i, AssistantTag) <==> i == |p| - |AssistantTag|)
  {
    DefaultLacks();
    MarkersOnce(user, None);
  }
}
