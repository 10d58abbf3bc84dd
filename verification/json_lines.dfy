/** JSON frames: a text per line. */
module JsonLines {
  import opened Common

  /** `JsonRpcSerializer::serialize` */
  function Serialize(text: string): string { text + ['\n'] }

  function SerializeAll(texts: seq<string>): string {
    if texts == [] then "" else Serialize(texts[0]) + SerializeAll(texts[1..])
  }

  /** The length of the first line with its newline, if there is a newline. */
  function LineEnd(s: string): (n: nat)
    ensures n <= |s|
    ensures n == 0 ==> '\n' !in s
    ensures n > 0 ==> s[n - 1] == '\n' && '\n' !in s[..n - 1]
  {
    if s == "" then 0
    else if s[0] == '\n' then 1
    else var n := LineEnd(s[1..]); if n == 0 then 0 else
      assert s[..n] == [s[0]] + s[1..][..n - 1];
      n + 1
  }

  /** What successive `read_line` calls return; the last one may end without a newline. */
  function Lines(s: string): seq<string>
    decreases |s|
  {
    if s == "" then [] else
      var n := LineEnd(s);
      if n == 0 then [s] else [s[..n]] + Lines(s[n..])
  }

  lemma {:induction false} LineEndOf(text: string, rest: string)
    requires '\n' !in text
    ensures LineEnd(Serialize(text) + rest) == |text| + 1
  {
    var s := Serialize(text) + rest;
    if text != "" {
      assert s[0] == text[0] && s[1..] == Serialize(text[1..]) + rest;
      LineEndOf(text[1..], rest);
    }
  }

  predicate NewlineFree(texts: seq<string>) {
    forall i :: 0 <= i < |texts| ==> '\n' !in texts[i]
  }

  function Expected(texts: seq<string>): seq<string> {
    seq(|texts|, i requires 0 <= i < |texts| => Serialize(texts[i]))
  }

  /** Every line read holds exactly one newline at its end, or none. */
  lemma {:induction false} LinesHoldOneNewline(s: string, i: nat)
    requires i < |Lines(s)|
    ensures var line := Lines(s)[i]; line != "" && '\n' !in line[..|line| - 1]
    decreases |s|
  {
    var n := LineEnd(s);
    if n > 0 && i > 0 { LinesHoldOneNewline(s[n..], i - 1); }
  }

  /** Frames are read back as they were written exactly when no text holds a newline. */
  lemma {:induction false} FramesReadBack(texts: seq<string>)
    ensures Lines(SerializeAll(texts)) == Expected(texts) <==> NewlineFree(texts)
  {
    var all := SerializeAll(texts);
    if NewlineFree(texts) {
      ReadBack(texts);
    } else {
      var i :| 0 <= i < |texts| && '\n' in texts[i];
      assert Expected(texts)[i] == Serialize(texts[i]);
      if i < |Lines(all)| {
        LinesHoldOneNewline(all, i);
        assert Lines(all)[i] != Serialize(texts[i]) by {
          assert Serialize(texts[i])[..|texts[i]|] == texts[i];
        }
      }
    }
  }

  lemma {:induction false} ReadBack(texts: seq<string>)
    requires NewlineFree(texts)
    ensures Lines(SerializeAll(texts)) == Expected(texts)
  {
    if texts != [] {
      var s, rest := SerializeAll(texts), SerializeAll(texts[1..]);
      LineEndOf(texts[0], rest);
      assert s[..|texts[0]| + 1] == Serialize(texts[0]) && s[|texts[0]| + 1..] == rest;
      ReadBack(texts[1..]);
      assert Expected(texts) == [Serialize(texts[0])] + Expected(texts[1..]);
    }
  }

  /** Nothing that was sent gets lost between the lines, nor a last line without a newline. */
  lemma {:induction false} LinesConserve(s: string)
    ensures Flatten(Lines(s)) == s
    decreases |s|
  {
    var n := LineEnd(s);
    if s != "" && n > 0 {
      LinesConserve(s[n..]);
      assert s == s[..n] + s[n..];
    } else if s != "" {
      assert Lines(s)[1..] == [] && s + Flatten<char>([]) == s;
    }
  }
}
