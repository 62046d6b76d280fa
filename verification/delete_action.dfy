/** The delete button's callback data: written as "delete_" followed by the file
    name (index.js, line 116) and read back by the action trigger `/delete_(.+)/`,
    whose first capture group is the file name to remove (lines 126-127). */
module DeleteAction {
  import opened Wrappers
  import opened JsValues

  const Prefix: string := "delete_"

  /** The callback data of the delete button: `delete_${filename}`. */
  function Encode(filename: Option<string>): (data: string)
    ensures |data| == |Prefix| + |Render(filename)|
    ensures data[..|Prefix|] == Prefix && data[|Prefix|..] == Render(filename)
  {
    Prefix + Render(filename)
  }

  // ---------------------------------------------------------------------------
  // What `/delete_(.+)/.exec(data)` means, stated without any search procedure.
  // The pattern is unanchored and has no flags, so `.` matches every character
  // except a line terminator, `.+` is greedy and nothing follows it.

  /** The pattern matches at position `k` with first capture `f`: the prefix sits at
      `k`, and `f` is a non-empty run of non-terminators after it that cannot be
      extended (it reaches the end of `data` or a line terminator). */
  ghost predicate CapturesAt(data: string, k: nat, f: string) {
    var s := k + |Prefix|;
    && s + |f| <= |data|
    && |f| > 0
    && data[k..s] == Prefix
    && data[s..s + |f|] == f
    && (forall j :: s <= j < s + |f| ==> !IsLineTerminator(data[j]))
    && (s + |f| == |data| || IsLineTerminator(data[s + |f|]))
  }

  /** The regular expression's result: the capture of the leftmost match. */
  ghost predicate LeftmostCapture(data: string, f: string) {
    exists k: nat :: CapturesAt(data, k, f) && forall j: nat, g :: j < k ==> !CapturesAt(data, j, g)
  }

  // ---------------------------------------------------------------------------
  // The matcher.

  /** Whether a match can start at `k`: the prefix is there and is followed by at
      least one character that `.` accepts. */
  predicate StartsAt(data: string, k: nat) {
    && k + |Prefix| < |data|
    && data[k..k + |Prefix|] == Prefix
    && !IsLineTerminator(data[k + |Prefix|])
  }

  /** Length of the longest run of non-terminators starting at `j`: what the greedy
      `.+` consumes. */
  function RunLength(data: string, j: nat): (n: nat)
    requires j <= |data|
    ensures j + n <= |data|
    ensures forall i :: j <= i < j + n ==> !IsLineTerminator(data[i])
    ensures j + n == |data| || IsLineTerminator(data[j + n])
    decreases |data| - j
  {
    if j == |data| || IsLineTerminator(data[j]) then 0 else 1 + RunLength(data, j + 1)
  }

  /** The leftmost position at or after `i` where a match starts, if any. */
  function FindStart(data: string, i: nat): (k: Option<nat>)
    requires i <= |data|
    ensures k.Some? ==> i <= k.value && StartsAt(data, k.value)
    ensures k.Some? ==> forall j: nat :: i <= j < k.value ==> !StartsAt(data, j)
    ensures k.None? ==> forall j: nat :: i <= j ==> !StartsAt(data, j)
    decreases |data| - i
  {
    if StartsAt(data, i) then Some(i)
    else if i == |data| then None
    else FindStart(data, i + 1)
  }

  /** `ctx.match[1]` for `/delete_(.+)/`, or `None` when the pattern does not match
      (then Telegraf does not run the delete handler at all). */
  function Decode(data: string): (f: Option<string>)
    ensures f.Some? ==> LeftmostCapture(data, f.value)
    ensures f.None? ==> forall k: nat, g :: !CapturesAt(data, k, g)
  {
    match FindStart(data, 0)
    case None =>
      assert forall k: nat, g :: CapturesAt(data, k, g) ==> StartsAt(data, k) by {
        forall k: nat, g | CapturesAt(data, k, g) ensures StartsAt(data, k) {
          CaptureStarts(data, k, g);
        }
      }
      None
    case Some(k) =>
      var start := k + |Prefix|;
      var f := data[start..start + RunLength(data, start)];
      assert CapturesAt(data, k, f);
      assert forall j: nat, g :: j < k ==> !CapturesAt(data, j, g) by {
        forall j: nat, g | j < k && CapturesAt(data, j, g) ensures false {
          CaptureStarts(data, j, g);
        }
      }
      Some(f)
  }

  /** A capture at `k` means a match starts at `k`. */
  lemma CaptureStarts(data: string, k: nat, f: string)
    requires CapturesAt(data, k, f)
    ensures StartsAt(data, k)
  {
    assert data[k + |Prefix|] == f[0];
  }

  /** Greediness makes the capture at a position unique. */
  lemma CaptureUnique(data: string, k: nat, f: string, g: string)
    requires CapturesAt(data, k, f) && CapturesAt(data, k, g)
    ensures f == g
  {
  }

  /** Hence the regular expression has at most one result. */
  lemma LeftmostCaptureUnique(data: string, f: string, g: string)
    requires LeftmostCapture(data, f) && LeftmostCapture(data, g)
    ensures f == g
  {
    var k: nat :| CapturesAt(data, k, f) && forall j: nat, h :: j < k ==> !CapturesAt(data, j, h);
    var l: nat :| CapturesAt(data, l, g) && forall j: nat, h :: j < l ==> !CapturesAt(data, j, h);
    assert !(k < l) && !(l < k);
    CaptureUnique(data, k, f, g);
  }

  /** Round trip: the delete button of a file whose name is non-empty and free of
      line terminators decodes to exactly that name. */
  lemma {:induction false} DecodeEncode(filename: string)
    requires filename != "" && NoLineTerminator(filename)
    ensures Decode(Encode(Some(filename))) == Some(filename)
  {
    var data := Encode(Some(filename));
    assert CapturesAt(data, 0, filename);
    assert forall j: nat, g :: j < 0 ==> !CapturesAt(data, j, g);
    assert LeftmostCapture(data, filename);
    LeftmostCaptureUnique(data, Decode(data).value, filename);
  }

  /** The button of a file with an empty name carries "delete_", which the trigger
      does not match: no deletion is attempted. */
  lemma EmptyNameNotMatched()
    ensures Decode(Encode(Some(""))) == None
  {
    var data := Encode(Some(""));
    assert !StartsAt(data, 0);
    assert FindStart(data, 0) == FindStart(data, 1);
  }

  /** The button of a document without a name carries "delete_undefined", which
      decodes to the name "undefined". */
  lemma UndefinedNameDecodes()
    ensures Decode(Encode(None)) == Some("undefined")
  {
    DecodeEncode("undefined");
  }

  /** A name that begins with an ordinary character but contains a line terminator
      decodes to its part before the first terminator: the round trip then fails. */
  lemma {:induction false} DecodeTruncatesAtTerminator(filename: string, n: nat)
    requires 0 < n < |filename|
    requires NoLineTerminator(filename[..n]) && IsLineTerminator(filename[n])
    ensures Decode(Encode(Some(filename))) == Some(filename[..n])
    ensures Decode(Encode(Some(filename))) != Some(filename)
  {
    var data := Encode(Some(filename));
    var f := filename[..n];
    assert data[|Prefix|..|Prefix| + n] == f;
    assert data[|Prefix| + n] == filename[n];
    assert CapturesAt(data, 0, f);
    assert LeftmostCapture(data, f);
    LeftmostCaptureUnique(data, Decode(data).value, f);
  }
}
