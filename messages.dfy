/**
 * Error-message classification shared by both handlers: the test
 * `/403|login|private/i` on the raw message, and the fixed explanation that
 * replaces a message passing it.
 */
module Messages {

  /** Case folding of the regular expression's `i` flag (without `u`) for the
      characters of `403|login|private`: only ASCII letters fold, since a
      non-ASCII character is never canonicalised to an ASCII one. */
  function Lower(c: char): char {
    if 'A' <= c <= 'Z' then (c as int + 32) as char else c
  }

  function LowerStr(s: string): (r: string)
    ensures |r| == |s|
    ensures forall i :: 0 <= i < |s| ==> r[i] == Lower(s[i])
  {
    if s == [] then [] else [Lower(s[0])] + LowerStr(s[1..])
  }

  /** A left-to-right scan for `w` in `s`. */
  function Contains(s: string, w: string): bool
    decreases |s|
  {
    if |s| < |w| then false
    else if s[..|w|] == w then true
    else Contains(s[1..], w)
  }

  ghost predicate OccursAt(s: string, w: string, i: int) {
    0 <= i && i + |w| <= |s| && s[i..i + |w|] == w
  }

  /** The scan finds `w` exactly when `w` occurs somewhere in `s`. */
  lemma {:induction false} ContainsIff(s: string, w: string)
    ensures Contains(s, w) <==> exists i :: OccursAt(s, w, i)
    decreases |s|
  {
    if |s| < |w| {
    } else if s[..|w|] == w {
      assert OccursAt(s, w, 0);
    } else {
      ContainsIff(s[1..], w);
      if Contains(s[1..], w) {
        var i :| OccursAt(s[1..], w, i);
        assert s[i + 1..i + 1 + |w|] == s[1..][i..i + |w|];
        assert OccursAt(s, w, i + 1);
      } else {
        forall i | 0 <= i && i + |w| <= |s| ensures !OccursAt(s, w, i) {
          if i == 0 {
            assert s[0..0 + |w|] == s[..|w|];
          } else {
            var shifted, here := s[1..][i - 1..i - 1 + |w|], s[i..i + |w|];
            assert shifted == here by {
              forall j | 0 <= j < |w| ensures shifted[j] == here[j] {
                assert s[1..][i - 1 + j] == s[i + j];
              }
            }
            assert !OccursAt(s[1..], w, i - 1);
          }
        }
      }
    }
  }

  /** `w`, written in lower case, occurs in `msg` when case is ignored. */
  ghost predicate MentionsAt(msg: string, w: string, i: int) {
    0 <= i && i + |w| <= |msg| && forall j :: 0 <= j < |w| ==> Lower(msg[i + j]) == w[j]
  }

  ghost predicate Mentions(msg: string, w: string) {
    exists i :: MentionsAt(msg, w, i)
  }

  lemma {:induction false} MentionsIff(msg: string, w: string)
    ensures Contains(LowerStr(msg), w) <==> Mentions(msg, w)
  {
    var m := LowerStr(msg);
    ContainsIff(m, w);
    forall i | 0 <= i && i + |w| <= |msg|
      ensures OccursAt(m, w, i) <==> MentionsAt(msg, w, i)
    {
      if MentionsAt(msg, w, i) {
        assert m[i..i + |w|] == w;
      }
      if OccursAt(m, w, i) {
        forall j | 0 <= j < |w| ensures Lower(msg[i + j]) == w[j] {
          assert m[i..i + |w|][j] == m[i + j];
        }
      }
    }
    if Mentions(msg, w) {
      var i :| MentionsAt(msg, w, i);
      assert OccursAt(m, w, i);
    }
    if Contains(m, w) {
      var i :| OccursAt(m, w, i);
      assert MentionsAt(msg, w, i);
    }
  }

  /** The test `/403|login|private/i.test(msg)`. */
  predicate Restricted(msg: string)
    ensures Restricted(msg) <==> Mentions(msg, "403") || Mentions(msg, "login") || Mentions(msg, "private")
  {
    MentionsIff(msg, "403");
    MentionsIff(msg, "login");
    MentionsIff(msg, "private");
    var m := LowerStr(msg);
    Contains(m, "403") || Contains(m, "login") || Contains(m, "private")
  }

  /** The message reported for a failure whose raw message is `msg`. */
  function Classify(msg: string, explanation: string): (r: string)
    ensures r == if Mentions(msg, "403") || Mentions(msg, "login") || Mentions(msg, "private")
                 then explanation else msg
  {
    if Restricted(msg) then explanation else msg
  }

  // Each replacement text is a single string in the handler. Here it is written
  // in parts around the word `login`: the verifier cannot take apart a literal of
  // this length, but it can see where a part begins.

  /** The replacement text of the `/info` handler. */
  const InfoExplanation: string :=
    "This video appears to require " + "login" + " or is private. Only public videos can be accessed."

  /** The replacement text of the `/download` handler. */
  const DownloadExplanation: string :=
    "This media appears to require " + "login" + " or is private. Only public content can be downloaded."

  /** A word written in lower case is mentioned by any text that contains it. */
  lemma MentionedInside(before: string, w: string, after: string)
    requires forall j :: 0 <= j < |w| ==> Lower(w[j]) == w[j]
    ensures Mentions(before + w + after, w)
  {
    var msg := before + w + after;
    forall j | 0 <= j < |w| ensures Lower(msg[|before| + j]) == w[j] {
      assert msg[|before| + j] == w[j];
    }
    assert MentionsAt(msg, w, |before|);
  }

  /** Both explanations mention "login", so each passes the test. */
  lemma ExplanationsMentionLogin()
    ensures Mentions(InfoExplanation, "login") && Mentions(DownloadExplanation, "login")
  {
    MentionedInside("This video appears to require ", "login",
                    " or is private. Only public videos can be accessed.");
    MentionedInside("This media appears to require ", "login",
                    " or is private. Only public content can be downloaded.");
  }

  /** Classifying an already classified message changes nothing. */
  lemma ClassifyIdempotent(msg: string)
    ensures Classify(Classify(msg, InfoExplanation), InfoExplanation) == Classify(msg, InfoExplanation)
    ensures Classify(Classify(msg, DownloadExplanation), DownloadExplanation)
         == Classify(msg, DownloadExplanation)
  {
    ExplanationsMentionLogin();
  }

  /** A message with no character folding to some letter of `w` does not mention `w`. */
  lemma NotMentioned(msg: string, w: string, j: nat)
    requires j < |w|
    requires forall k :: 0 <= k < |msg| ==> Lower(msg[k]) != w[j]
    ensures !Mentions(msg, w)
  {
    forall i ensures !MentionsAt(msg, w, i) {
      if 0 <= i && i + |w| <= |msg| {
        assert Lower(msg[i + j]) != w[j];
      }
    }
  }

  /** Worked example: a message naming a private video is replaced. (The
      message is written in parts for the reason given above.) */
  lemma ClassifyPrivateExample()
    ensures var msg := "ERROR: Sign in to confirm you're not a bot (" + "private" + " video)";
            Classify(msg, InfoExplanation) == InfoExplanation
  {
    MentionedInside("ERROR: Sign in to confirm you're not a bot (", "private", " video)");
  }

  /** Worked example: an unsupported-URL message is passed through. */
  lemma ClassifyUnsupportedExample()
    ensures Classify("ERROR: Unsupported URL", InfoExplanation) == "ERROR: Unsupported URL"
  {
    var msg := "ERROR: Unsupported URL";
    NotMentioned(msg, "403", 0);
    NotMentioned(msg, "login", 2);
    NotMentioned(msg, "private", 3);
  }
}
