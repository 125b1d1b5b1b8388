/**
 * The keyboard easter egg: every key press appends the key's name to a
 * rolling ten-character buffer; "kappa" in the buffer navigates to the
 * admin page, "devmode" toggles the page's dev-mode class, and either one
 * empties the buffer. Navigation is recorded as the list of paths visited;
 * the alert shown with dev mode is left out.
 */
module EasterEgg {
  import opened Text

  const BufferSize: nat := 10
  const AdminTrigger: string := "kappa"
  const DevTrigger: string := "devmode"
  const AdminPath: string := "/admin"

  /** `s.slice(-k)`: the last k characters, or all of `s` when it is shorter. */
  function LastChars(s: string, k: nat): (r: string)
    ensures |r| <= k && |r| <= |s|
    ensures |r| == k || r == s
  {
    if |s| <= k then s else s[|s| - k..]
  }

  predicate EndsWith(s: string, t: string) {
    |t| <= |s| && s[|s| - |t|..] == t
  }

  /** What `slice(-k)` keeps is a suffix of the string. */
  lemma LastCharsIsSuffix(s: string, k: nat)
    ensures EndsWith(s, LastChars(s, k))
  {
  }

  /** A buffer the effect has nothing to do with: short, and holding neither trigger word. */
  predicate Settled(input: string) {
    |input| <= BufferSize && !Contains(input, AdminTrigger) && !Contains(input, DevTrigger)
  }

  /** Both trigger words never fit in one buffer: they share no letter and need 12 characters. */
  lemma TriggersExclusive(s: string)
    requires |s| <= BufferSize
    ensures !(Contains(s, AdminTrigger) && Contains(s, DevTrigger))
  {
    forall i, j | 0 <= i <= |s| - 5 && 0 <= j <= |s| - 7
      ensures !(OccursAt(s, AdminTrigger, i) && OccursAt(s, DevTrigger, j))
    {
      var p := if i <= j then j else i;
      assert s[i..i + 5][p - i] == s[p] == s[j..j + 7][p - j];
      assert AdminTrigger[p - i] != DevTrigger[p - j];
    }
  }

  datatype EggState = EggState(input: string, devMode: bool, navigations: seq<string>)

  /**
   * One key press followed by the effect it triggers. Both tests look at the
   * buffer value the effect was run for.
   */
  function Step(st: EggState, key: string): EggState {
    var buffer := LastChars(st.input + key, BufferSize);
    var navigate := Contains(buffer, AdminTrigger);
    var toggle := Contains(buffer, DevTrigger);
    EggState(if navigate || toggle then "" else buffer,
             st.devMode != toggle,
             st.navigations + (if navigate then [AdminPath] else []))
  }

  /**
   * Whatever the key, the buffer left after the effect is settled: at most ten
   * characters and holding neither trigger word, because a trigger empties it.
   */
  lemma StepSettles(st: EggState, key: string)
    ensures Settled(Step(st, key).input)
  {
    NotContainsLonger("", AdminTrigger);
    NotContainsLonger("", DevTrigger);
  }

  /** The buffer always ends with the last (up to ten) characters of the key just pressed. */
  lemma BufferEndsWithKey(input: string, key: string)
    ensures var buffer := LastChars(input + key, BufferSize);
            var tail := LastChars(key, BufferSize);
            |tail| <= |buffer| && buffer[|buffer| - |tail|..] == tail
  {
    var s := input + key;
    var buffer := LastChars(s, BufferSize);
    var tail := LastChars(key, BufferSize);
    assert s[|s| - |key|..] == key;
    assert buffer[|buffer| - |tail|..] == s[|s| - |tail|..];
    assert s[|s| - |tail|..] == key[|key| - |tail|..];
  }

  /** A press never fires both triggers: navigation and toggling exclude each other. */
  lemma OneTriggerPerPress(st: EggState, key: string)
    ensures var next := Step(st, key);
            !(next.devMode != st.devMode && |next.navigations| > |st.navigations|)
  {
    TriggersExclusive(LastChars(st.input + key, BufferSize));
  }

  /** The state after a sequence of key presses, each followed by its effect. */
  function Run(st: EggState, keys: seq<string>): EggState
    decreases |keys|
  {
    if keys == [] then st else Run(Step(st, keys[0]), keys[1..])
  }

  /** The seven key presses that type "devmode". */
  const DevKeys: seq<string> := ["d", "e", "v", "m", "o", "d", "e"]

  /**
   * A one-character key that is not the last letter of `w` cannot complete an
   * occurrence of `w`: any occurrence in the new buffer was already in the old one.
   */
  lemma NoNewOccurrence(input: string, c: char, w: string)
    requires |w| > 0 && !Contains(input, w) && c != w[|w| - 1]
    ensures !Contains(LastChars(input + [c], BufferSize), w)
  {
    var s := input + [c];
    var b := LastChars(s, BufferSize);
    var off := |s| - |b|;
    forall i | 0 <= i <= |b| - |w| ensures !OccursAt(b, w, i) {
      assert s[off + i..off + i + |w|] == b[i..i + |w|];
      if off + i + |w| < |s| {
        assert input[off + i..off + i + |w|] == s[off + i..off + i + |w|];
        assert !OccursAt(input, w, off + i);
      } else {
        assert b[i..i + |w|][|w| - 1] == c;
      }
    }
  }

  /** A buffer ending with `t` ends with `t + [c]` once `c` is typed, while `t + [c]` fits. */
  lemma EndsWithAfterKey(input: string, t: string, c: char)
    requires |t| < BufferSize && EndsWith(input, t)
    ensures EndsWith(LastChars(input + [c], BufferSize), t + [c])
  {
    var s := input + [c];
    var b := LastChars(s, BufferSize);
    assert b[|b| - |t| - 1..] == s[|s| - |t| - 1..];
    assert s[|s| - |t| - 1..] == input[|input| - |t|..] + [c];
  }

  /** From a settled buffer, a key that ends neither trigger word only extends the buffer. */
  lemma QuietStep(st: EggState, c: char)
    requires Settled(st.input) && c != 'a' && c != 'e'
    ensures Step(st, [c]) == st.(input := LastChars(st.input + [c], BufferSize))
  {
    NoNewOccurrence(st.input, c, AdminTrigger);
    NoNewOccurrence(st.input, c, DevTrigger);
  }

  /** The last five presses of "devmode", after "d" and "e". */
  function TypeVmode(st: EggState): EggState {
    Step(Step(Step(Step(Step(st, "v"), "m"), "o"), "d"), "e")
  }

  lemma RunDevKeys(st: EggState)
    ensures Run(st, DevKeys) == TypeVmode(Step(Step(st, "d"), "e"))
  {
    var k := DevKeys;
    assert k[1..] == ["e", "v", "m", "o", "d", "e"];
    assert k[2..] == ["v", "m", "o", "d", "e"];
    assert k[3..] == ["m", "o", "d", "e"];
    assert k[4..] == ["o", "d", "e"];
    assert k[5..] == ["d", "e"];
    assert k[6..] == ["e"];
    assert k[7..] == [];
    assert k[1..][1..] == k[2..] && k[2..][1..] == k[3..] && k[3..][1..] == k[4..];
    assert k[4..][1..] == k[5..] && k[5..][1..] == k[6..] && k[6..][1..] == k[7..];
  }

  /** After an early toggle the rest of the word fires nothing and stays in the buffer. */
  lemma VmodeFromEmpty(st: EggState)
    requires st.input == ""
    ensures TypeVmode(st) == st.(input := "vmode")
  {
    NotContainsLonger("", AdminTrigger);
    NotContainsLonger("", DevTrigger);
    QuietStep(st, 'v');
    var s3 := Step(st, "v");
    QuietStep(s3, 'm');
    var s4 := Step(s3, "m");
    QuietStep(s4, 'o');
    var s5 := Step(s4, "o");
    QuietStep(s5, 'd');
    var s6 := Step(s5, "d");
    assert s6.input == "vmod";
    NoNewOccurrence(s6.input, 'e', AdminTrigger);
    NotContainsLonger("vmode", DevTrigger);
  }

  /** A quiet key keeps dev mode and navigation and extends the tail the buffer ends with. */
  lemma QuietExtend(st: EggState, c: char, t: string)
    requires Settled(st.input) && c != 'a' && c != 'e' && |t| < BufferSize && EndsWith(st.input, t)
    ensures var next := Step(st, [c]);
            next.devMode == st.devMode && next.navigations == st.navigations
            && Settled(next.input) && EndsWith(next.input, t + [c])
  {
    QuietStep(st, c);
    StepSettles(st, [c]);
    EndsWithAfterKey(st.input, t, c);
  }

  /** The buffer after "e" completes "devmod" holds "devmode" and not "kappa". */
  lemma CompletedWord(input: string)
    requires Settled(input) && EndsWith(input, "devmod")
    ensures Contains(LastChars(input + "e", BufferSize), DevTrigger)
    ensures !Contains(LastChars(input + "e", BufferSize), AdminTrigger)
  {
    EndsWithAfterKey(input, "devmod", 'e');
    var b := LastChars(input + "e", BufferSize);
    assert "devmod" + ['e'] == DevTrigger;
    assert b[|b| - 7..|b|] == b[|b| - 7..];
    ContainsWitness(b, DevTrigger, |b| - 7);
    NoNewOccurrence(input, 'e', AdminTrigger);
  }

  /** With "devmod" at the end of the buffer, "e" toggles dev mode and empties the buffer. */
  lemma FinalE(st: EggState)
    requires Settled(st.input) && EndsWith(st.input, "devmod")
    ensures Step(st, "e") == st.(input := "", devMode := !st.devMode)
  {
    CompletedWord(st.input);
  }

  /** With "devm" typed and no toggle yet, "ode" toggles on its final "e". */
  lemma OdeCompletesWord(st: EggState)
    requires Settled(st.input) && EndsWith(st.input, "devm")
    ensures Step(Step(Step(st, "o"), "d"), "e") == st.(input := "", devMode := !st.devMode)
  {
    var s5 := Step(st, "o");
    QuietExtend(st, 'o', "devm");
    var s6 := Step(s5, "d");
    QuietExtend(s5, 'd', "devmo");
    FinalE(s6);
  }

  /** With "de" typed and no toggle yet, the rest of the word toggles on its final "e". */
  lemma VmodeCompletesWord(st: EggState)
    requires Settled(st.input) && EndsWith(st.input, "de")
    ensures TypeVmode(st) == st.(input := "", devMode := !st.devMode)
  {
    var s3 := Step(st, "v");
    QuietExtend(st, 'v', "de");
    var s4 := Step(s3, "m");
    QuietExtend(s3, 'm', "dev");
    OdeCompletesWord(s4);
  }

  /** The first key, "d", only extends the buffer. */
  lemma FirstKey(st: EggState)
    requires Settled(st.input)
    ensures var next := Step(st, "d");
            next == st.(input := LastChars(st.input + "d", BufferSize))
            && Settled(next.input) && EndsWith(next.input, "d")
            && (st.input == "" ==> next.input == "d")
  {
    QuietExtend(st, 'd', "");
    QuietStep(st, 'd');
    StepSettles(st, "d");
  }

  /**
   * The first "e" after "d": it toggles only when the buffer then holds
   * "devmode" (it ended with "devmo" before), and otherwise the buffer ends with "de".
   */
  lemma SecondKey(st: EggState)
    requires Settled(st.input) && EndsWith(st.input, "d")
    ensures var b := LastChars(st.input + "e", BufferSize);
            Contains(b, DevTrigger) ==> Step(st, "e") == st.(input := "", devMode := !st.devMode)
    ensures var b := LastChars(st.input + "e", BufferSize);
            !Contains(b, DevTrigger) ==> Step(st, "e") == st.(input := b) && Settled(b) && EndsWith(b, "de")
    ensures st.input == "d" ==> !Contains(LastChars(st.input + "e", BufferSize), DevTrigger)
  {
    var b := LastChars(st.input + "e", BufferSize);
    NoNewOccurrence(st.input, 'e', AdminTrigger);
    EndsWithAfterKey(st.input, "d", 'e');
    if st.input == "d" {
      assert b == "de";
      NotContainsLonger(b, DevTrigger);
    }
  }

  /** The buffer after typing "d" and then "e" on `input`. */
  function AfterDe(input: string): string {
    LastChars(LastChars(input + "d", BufferSize) + "e", BufferSize)
  }

  /** The first "e" completes the word: the rest of it then fires nothing. */
  lemma EarlyToggle(st: EggState)
    requires Settled(st.input) && Contains(AfterDe(st.input), DevTrigger)
    ensures TypeVmode(Step(Step(st, "d"), "e")) == st.(input := "vmode", devMode := !st.devMode)
  {
    var s1 := Step(st, "d");
    FirstKey(st);
    var s2 := Step(s1, "e");
    SecondKey(s1);
    VmodeFromEmpty(s2);
  }

  /** The first "e" does not complete the word, so the final one does. */
  lemma LateToggle(st: EggState)
    requires Settled(st.input) && !Contains(AfterDe(st.input), DevTrigger)
    ensures TypeVmode(Step(Step(st, "d"), "e")) == st.(input := "", devMode := !st.devMode)
  {
    FirstKey(st);
    SecondKey(Step(st, "d"));
    VmodeCompletesWord(Step(Step(st, "d"), "e"));
  }

  /**
   * Typing "devmode" from any settled state toggles dev mode exactly once and
   * never navigates. The toggle fires on the final "e", or on the first "e"
   * when the buffer already ended with "devmo"; from an empty buffer it is the
   * final one, and the buffer is empty again afterwards.
   */
  lemma TypingDevModeTogglesOnce(st: EggState)
    requires Settled(st.input)
    ensures var r := Run(st, DevKeys);
            Settled(r.input) && r.devMode == !st.devMode && r.navigations == st.navigations
            && (st.input == "" ==> r.input == "")
  {
    RunDevKeys(st);
    if Contains(AfterDe(st.input), DevTrigger) {
      EarlyToggle(st);
      NotContainsByFirstChar("vmode", AdminTrigger);
      NotContainsLonger("vmode", DevTrigger);
    } else {
      LateToggle(st);
      NotContainsLonger("", AdminTrigger);
      NotContainsLonger("", DevTrigger);
    }
  }

  /** Typing "devmode" twice leaves dev mode as it was, and navigates nowhere. */
  lemma TypingDevModeTwiceRestores(st: EggState)
    requires Settled(st.input)
    ensures var r := Run(Run(st, DevKeys), DevKeys);
            r.devMode == st.devMode && r.navigations == st.navigations
  {
    TypingDevModeTogglesOnce(st);
    TypingDevModeTogglesOnce(Run(st, DevKeys));
  }

  class Listener {
    var input: string
    /** Whether the body carries the dev-mode class. */
    var devMode: bool
    /** The paths `navigate` was called with, oldest first. */
    var navigations: seq<string>

    ghost predicate Valid()
      reads this
    {
      Settled(input)
    }

    function State(): EggState
      reads this
    {
      EggState(input, devMode, navigations)
    }

    constructor (devMode: bool)
      ensures Valid() && input == "" && this.devMode == devMode && navigations == []
    {
      input := "";
      this.devMode := devMode;
      navigations := [];
      NotContainsLonger("", AdminTrigger);
      NotContainsLonger("", DevTrigger);
    }

    /** The keydown handler and the effect that runs on the new buffer. */
    method KeyDown(key: string)
      requires Valid()
      modifies this
      ensures Valid()
      ensures State() == Step(old(State()), key)
    {
      StepSettles(State(), key);
      input := LastChars(input + key, BufferSize);
      var buffer := input;
      if Contains(buffer, AdminTrigger) {
        navigations := navigations + [AdminPath];
        input := "";
      }
      if Contains(buffer, DevTrigger) {
        devMode := !devMode;
        input := "";
      }
    }
  }
}
