/**
 * Classification of exceptions raised while fetching (typically by the SQLite
 * response cache) as transient storage faults worth retrying
 * (`SQLITE_RETRY_ERRORS` and the `except Exception` branch of `_get`).
 */
module StorageFault {

  /** The four message fragments listed as transient SQLite errors, in source order. */
  const RetryPatterns: seq<string> := ["database is locked", "bad parameter", "API misuse", "disk I/O error"]

  predicate IsUpper(c: char) {
    'A' <= c <= 'Z'
  }

  /** Lower-casing of one character (ASCII letters only). */
  function LowerChar(c: char): (r: char)
    ensures !IsUpper(r)
    ensures !IsUpper(c) ==> r == c
    ensures IsUpper(c) ==> r as int == c as int + 32
  {
    if IsUpper(c) then (c as int + 32) as char else c
  }

  /** `str.lower()` on a message: same length, no upper-case letter left. */
  function Lower(s: string): (r: string)
    ensures |r| == |s|
    ensures forall i :: 0 <= i < |r| ==> !IsUpper(r[i])
    ensures forall i :: 0 <= i < |s| && !IsUpper(s[i]) ==> r[i] == s[i]
    ensures forall i :: 0 <= i < |s| && IsUpper(s[i]) ==> r[i] as int == s[i] as int + 32
  {
    seq(|s|, i requires 0 <= i < |s| => LowerChar(s[i]))
  }

  /** `p` occurs in `s` starting at position `i`. */
  predicate OccursAt(s: string, p: string, i: int) {
    0 <= i && i + |p| <= |s| && s[i..i + |p|] == p
  }

  /** Python's `p in s` for strings: `p` occurs in `s` at some position. */
  predicate Contains(s: string, p: string) {
    exists i | 0 <= i <= |s| - |p| :: OccursAt(s, p, i)
  }

  /** A fragment holding an upper-case letter never occurs in a lower-cased text. */
  lemma UpperCasePatternNeverMatches(message: string, p: string, j: int)
    requires 0 <= j < |p| && IsUpper(p[j])
    ensures !Contains(Lower(message), p)
  {
    var lowered := Lower(message);
    forall i | 0 <= i <= |lowered| - |p|
      ensures !OccursAt(lowered, p, i)
    {
    }
  }

  /**
   * The `is_sqlite_error` test: the lower-cased message contains one of the
   * listed fragments, compared as written.
   */
  predicate IsTransient(message: string) {
    var lowered := Lower(message);
    exists p :: p in RetryPatterns && Contains(lowered, p)
  }

  /**
   * Because the message is lower-cased and the fragments are not, "API misuse"
   * and "disk I/O error" can never match: a message is transient exactly when
   * its lower-cased text contains "database is locked" or "bad parameter".
   */
  lemma OnlyLowerCasePatternsMatch(message: string)
    ensures IsTransient(message) <==>
              Contains(Lower(message), "database is locked") || Contains(Lower(message), "bad parameter")
  {
    UpperCasePatternNeverMatches(message, "API misuse", 0);
    UpperCasePatternNeverMatches(message, "disk I/O error", 5);
    assert RetryPatterns[0] == "database is locked";
    assert RetryPatterns[1] == "bad parameter";
  }

  /** Lower-casing twice is lower-casing once. */
  lemma LowerIdempotent(s: string)
    ensures Lower(Lower(s)) == Lower(s)
  {
  }

  /** The classification ignores letter case in the message. */
  lemma CaseInsensitive(message: string)
    ensures IsTransient(Lower(message)) == IsTransient(message)
  {
    LowerIdempotent(message);
  }

  /** A locked database is retried whatever the letter case of the message. */
  lemma LockedDatabaseIsTransient()
    ensures IsTransient("database is locked")
    ensures IsTransient("Database Is LOCKED")
    ensures forall m :: Lower(m) == "database is locked" ==> IsTransient(m)
  {
    var pattern := RetryPatterns[0];
    assert Lower("database is locked") == pattern;
    assert Lower("Database Is LOCKED") == pattern;
    assert OccursAt(pattern, pattern, 0);
    assert Contains(pattern, pattern);
    assert IsTransient(pattern);
    forall m | Lower(m) == pattern
      ensures IsTransient(m)
    {
      CaseInsensitive(m);
    }
  }

  /** SQLite's "bad parameter or other API misuse" is retried through its "bad parameter" part. */
  lemma MisuseIsTransient()
    ensures IsTransient("bad parameter or other API misuse")
  {
    var pattern := RetryPatterns[1];
    var lowered := Lower("bad parameter or other API misuse");
    assert lowered[..13] == pattern;
    assert OccursAt(lowered, pattern, 0);
    assert Contains(lowered, pattern);
  }

  /** A disk I/O error is never retried, although its fragment is listed. */
  lemma DiskIoErrorIsNotTransient()
    ensures !IsTransient("disk I/O error")
  {
    OnlyLowerCasePatternsMatch("disk I/O error");
    var lowered := Lower("disk I/O error");
    assert lowered == "disk i/o error";
    assert !Contains(lowered, "database is locked");
    assert !Contains(lowered, "bad parameter") by {
      forall i | 0 <= i <= |lowered| - 13 ensures !OccursAt(lowered, "bad parameter", i) {
        assert lowered[0] == 'd' && lowered[1] == 'i';
        assert lowered[i..i + 13][0] != "bad parameter"[0];
      }
    }
  }
}
