/**
 The deduplication keys of the kernel's events. Task, attempt and job identifiers are
 arbitrary text, colons included, and yet a key can be the key of one thing only.
 */
module Keys {
  import opened Text

  datatype Key =
    | Created(taskId: string)
    | Revised(taskId: string, revision: nat)
    | Started(taskId: string, number: nat)
    | Completed(attemptId: string)
    | Expired(attemptId: string)
    | Renewed(attemptId: string, ms: int)
    | Checkpointed(attemptId: string, number: nat)
    | Bound(taskId: string)
    | Unmigrated(jobId: string)

  function Tag(prefix: string, word: string): string {
    prefix + ":" + word
  }

  function Render(k: Key): string {
    match k
    case Created(t) => Tag(t, "created")
    case Revised(t, n) => Tag(Tag(t, "revision"), Decimal(n))
    case Started(t, n) => Tag(Tag(Tag(t, "attempt"), Decimal(n)), "started")
    case Completed(a) => Tag(a, "completed")
    case Expired(a) => Tag(a, "expired")
    case Renewed(a, ms) => Tag(Tag(a, "renew"), IntText(ms))
    case Checkpointed(a, n) => Tag(Tag(a, "checkpoint"), Decimal(n))
    case Bound(t) => Tag(Tag(t, "payload"), "input")
    case Unmigrated(j) => Tag(j, "unmigrated")
  }

  /** A word without colons: what follows the last colon of a key. */
  predicate IsWord(s: string) {
    forall i :: 0 <= i < |s| ==> s[i] != ':'
  }

  lemma TagInjective(x: string, s: string, y: string, u: string)
    requires IsWord(s) && IsWord(u) && Tag(x, s) == Tag(y, u)
    ensures x == y && s == u
  {
    var k := Tag(x, s);
    assert k[|x|] == ':' && k[|y|] == ':';
    assert k[..|x|] == x && k[..|x|] == y;
    assert k[|x| + 1..] == s && k[|x| + 1..] == u;
  }

  lemma NumeralWord(n: int)
    ensures IsWord(IntText(n)) && IntText(n) != "" && (IntText(n)[0] == '-' || IsDigit(IntText(n)[0]))
    ensures n >= 0 ==> IntText(n) == Decimal(n)
  {
    DecimalNumeral(if n < 0 then -n else n);
  }

  /** The last word of a key and what stands before it. */
  ghost function LastWord(k: Key): string {
    match k
    case Created(_) => "created"
    case Revised(_, n) => Decimal(n)
    case Started(_, _) => "started"
    case Completed(_) => "completed"
    case Expired(_) => "expired"
    case Renewed(_, ms) => IntText(ms)
    case Checkpointed(_, n) => Decimal(n)
    case Bound(_) => "input"
    case Unmigrated(_) => "unmigrated"
  }

  ghost function Front(k: Key): string {
    match k
    case Created(t) => t
    case Revised(t, _) => Tag(t, "revision")
    case Started(t, n) => Tag(Tag(t, "attempt"), Decimal(n))
    case Completed(a) => a
    case Expired(a) => a
    case Renewed(a, _) => Tag(a, "renew")
    case Checkpointed(a, _) => Tag(a, "checkpoint")
    case Bound(t) => Tag(t, "payload")
    case Unmigrated(j) => j
  }

  lemma Words(k: Key)
    ensures Render(k) == Tag(Front(k), LastWord(k)) && IsWord(LastWord(k)) && LastWord(k) != ""
    ensures k.Revised? || k.Renewed? || k.Checkpointed? <==> LastWord(k)[0] == '-' || IsDigit(LastWord(k)[0])
  {
    match k
    case Revised(_, n) => NumeralWord(n);
    case Renewed(_, ms) => NumeralWord(ms);
    case Checkpointed(_, n) => NumeralWord(n);
    case _ =>
  }

  /** The second-last word of the keys that end in a number. */
  lemma Numbered(j: Key, k: Key)
    requires Front(j) == Front(k) && LastWord(j) == LastWord(k)
    requires (j.Revised? || j.Renewed? || j.Checkpointed?) && (k.Revised? || k.Renewed? || k.Checkpointed?)
    ensures j == k
  {
    var wj := if j.Revised? then "revision" else if j.Renewed? then "renew" else "checkpoint";
    var wk := if k.Revised? then "revision" else if k.Renewed? then "renew" else "checkpoint";
    var ij := if j.Revised? then j.taskId else j.attemptId;
    var ik := if k.Revised? then k.taskId else k.attemptId;
    TagInjective(ij, wj, ik, wk);
    var nj := if j.Revised? then j.revision else if j.Renewed? then j.ms else j.number;
    var nk := if k.Revised? then k.revision else if k.Renewed? then k.ms else k.number;
    NumeralWord(nj);
    NumeralWord(nk);
    IntTextInjective(nj, nk);
  }

  lemma StartedInjective(j: Key, k: Key)
    requires j.Started? && k.Started? && Front(j) == Front(k)
    ensures j == k
  {
    NumeralWord(j.number);
    NumeralWord(k.number);
    TagInjective(Tag(j.taskId, "attempt"), Decimal(j.number), Tag(k.taskId, "attempt"), Decimal(k.number));
    DecimalInjective(j.number, k.number);
    TagInjective(j.taskId, "attempt", k.taskId, "attempt");
  }

  /** Different keys never print alike, whatever the identifiers in them. */
  lemma RenderInjective(j: Key, k: Key)
    requires Render(j) == Render(k)
    ensures j == k
  {
    Words(j);
    Words(k);
    TagInjective(Front(j), LastWord(j), Front(k), LastWord(k));
    if j.Revised? || j.Renewed? || j.Checkpointed? {
      Numbered(j, k);
    } else if j.Started? {
      StartedInjective(j, k);
    } else if j.Bound? {
      TagInjective(j.taskId, "payload", k.taskId, "payload");
    }
  }
}
