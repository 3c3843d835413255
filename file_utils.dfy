/**
 * The file-name helpers of utils.py: the extension of a name, the name
 * without its directories, and the check that a file has an expected
 * extension. Names are strings; the file objects the source also accepts
 * only contribute their name. Lower-casing covers the ASCII letters.
 */
module FileUtils {
  import opened Wrappers

  /** `c.lower()` of an ASCII letter. */
  function LowerChar(c: char): char {
    if 'A' <= c <= 'Z' then (c as int + 32) as char else c
  }

  /** `s.lower()`. */
  function Lower(s: string): string {
    seq(|s|, i requires 0 <= i < |s| => LowerChar(s[i]))
  }

  /** `s[::-1]`. */
  function Reverse(s: string): (r: string)
    ensures |r| == |s| && forall i :: 0 <= i < |s| ==> r[i] == s[|s| - 1 - i]
  {
    seq(|s|, i requires 0 <= i < |s| => s[|s| - 1 - i])
  }

  /** `s.find(c)`: the first index of c, or -1. */
  function Find(s: string, c: char): (r: int)
    ensures r == -1 <==> c !in s
    ensures r != -1 ==> 0 <= r < |s| && s[r] == c && c !in s[..r]
  {
    if |s| == 0 then -1
    else if s[0] == c then 0
    else
      var f := Find(s[1..], c);
      assert s == [s[0]] + s[1..];
      if f == -1 then -1 else (assert s[..f + 1] == [s[0]] + s[1..][..f]; f + 1)
  }

  /** `s[start:]` for a start that is not negative. */
  function From(s: string, start: nat): string {
    if start >= |s| then "" else s[start..]
  }

  /** The index of the last c, or -1. */
  function LastIndex(s: string, c: char): (k: int)
    ensures -1 <= k < |s|
    ensures k >= 0 ==> s[k] == c
    ensures forall i :: k < i < |s| ==> s[i] != c
  {
    if |s| == 0 then -1
    else if s[|s| - 1] == c then |s| - 1
    else
      var t := s[..|s| - 1];
      var k := LastIndex(t, c);
      assert forall i :: k < i < |t| ==> t[i] == s[i];
      k
  }

  /** There is no c exactly when LastIndex finds none. */
  lemma LastIndexAbsent(s: string, c: char)
    ensures LastIndex(s, c) == -1 <==> c !in s
  {
    var k := LastIndex(s, c);
    if k >= 0 {
      assert s[k] == c;
    }
  }

  /** `s[len(s) - s[::-1].find(c):]`: the text after the last c, or ''
      when there is no c. */
  function AfterLast(s: string, c: char): (r: string)
    ensures r == if LastIndex(s, c) == -1 then "" else s[LastIndex(s, c) + 1..]
  {
    var f := Find(Reverse(s), c);
    ReverseFind(s, c);
    if f == -1 then From(s, |s| + 1) else From(s, |s| - f)
  }

  /** Searching the reversed text finds the last c. */
  lemma {:induction false} ReverseFind(s: string, c: char)
    ensures Find(Reverse(s), c) == -1 <==> LastIndex(s, c) == -1
    ensures Find(Reverse(s), c) != -1 ==> Find(Reverse(s), c) == |s| - 1 - LastIndex(s, c)
  {
    var t := Reverse(s);
    var k := LastIndex(s, c);
    if k >= 0 {
      var j := |s| - 1 - k;
      forall i | 0 <= i < j
        ensures t[i] != c
      {
        assert t[i] == s[|s| - 1 - i];
      }
      FindsFirst(t, c, j);
    } else {
      forall i | 0 <= i < |t|
        ensures t[i] != c
      {
        assert t[i] == s[|s| - 1 - i];
      }
    }
  }

  /** `find` gives the first position holding c. */
  lemma FindsFirst(t: string, c: char, j: int)
    requires 0 <= j < |t| && t[j] == c
    requires forall i :: 0 <= i < j ==> t[i] != c
    ensures Find(t, c) == j
  {
  }

  /** `extension(file_name)`: the lower-cased text after the last '.', or
      '' when the name has no '.'. */
  function Extension(name: string): (r: string)
    ensures var k := LastIndex(name, '.'); r == if k == -1 then "" else Lower(name[k + 1..])
  {
    Lower(AfterLast(name, '.'))
  }

  /** `file_name(file)` as written: the lower-cased text after the last
      '/', and so '' for a name without a directory. */
  function FileNameAsWritten(path: string): (r: string)
    ensures var k := LastIndex(path, '/'); r == if k == -1 then "" else Lower(path[k + 1..])
  {
    Lower(AfterLast(path, '/'))
  }

  /** `file_name(file)` as its documentation describes it: the name without
      the path, lower-cased, which for a name without a directory is the
      whole name. */
  function FileName(path: string): (r: string)
    ensures '/' !in r
    ensures '/' !in path ==> r == Lower(path)
    ensures '/' in path ==> r == FileNameAsWritten(path)
  {
    if '/' in path then
      var r := FileNameAsWritten(path);
      LowerKeepsSlash(AfterLast(path, '/'));
      r
    else
      LowerKeepsSlash(path);
      Lower(path)
  }

  /** Lower-casing neither adds nor removes a '/'. */
  lemma {:induction false} LowerKeepsSlash(s: string)
    ensures '/' in Lower(s) <==> '/' in s
  {
    if '/' in Lower(s) {
      var i :| 0 <= i < |s| && Lower(s)[i] == '/';
      assert s[i] == '/';
    }
    if '/' in s {
      var i :| 0 <= i < |s| && s[i] == '/';
      assert Lower(s)[i] == '/';
    }
  }

  /** A file in the current directory gets no name as written. */
  lemma NameWithoutDirectory()
    ensures FileNameAsWritten("prog.asm") == ""
    ensures FileName("prog.asm") == "prog.asm"
  {
    var p := "prog.asm";
    assert '/' !in p;
    assert LastIndex(p, '/') == -1;
    LowerOfNoCapitals(p);
  }

  /** A text without capitals is its own lower case. */
  lemma LowerOfNoCapitals(s: string)
    requires forall i :: 0 <= i < |s| ==> !('A' <= s[i] <= 'Z')
    ensures Lower(s) == s
  {
    assert forall i :: 0 <= i < |s| ==> Lower(s)[i] == s[i];
  }

  /** `verify_file(file, ext, ext_error)`: FileError with the given
      message when the extension differs from `ext`, otherwise the name
      without '.' and the extension. */
  function VerifyFile(name: string, ext: string, extError: string): (r: Result<string>)
    ensures r.Failure? <==> ext != Extension(name)
    ensures r.Failure? ==> r.error == FileError(name, extError)
    ensures r.Success? && '.' in name ==>
      |r.value| < |name| && name == r.value + "." + name[|r.value| + 1..] && Lower(name[|r.value| + 1..]) == ext
    ensures r.Success? && '.' !in name ==> ext == "" && r.value == if |name| > 0 then name[..|name| - 1] else ""
  {
    var fileExt := Extension(name);
    if ext != fileExt then Failure(FileError(name, extError))
    else
      var cut := |name| - |fileExt| - 1;
      var base := if cut > 0 then name[..cut] else "";
      SplitsAtExtension(name);
      Success(base)
  }

  /** The name is its base, '.' and the text whose lower case is its
      extension. */
  lemma {:induction false} SplitsAtExtension(name: string)
    ensures '.' in name ==> var cut := |name| - |Extension(name)| - 1;
      0 <= cut < |name| && name[cut] == '.' && Lower(name[cut + 1..]) == Extension(name)
      && name == (if cut > 0 then name[..cut] else "") + "." + name[cut + 1..]
  {
    if '.' in name {
      var k := LastIndex(name, '.');
      assert |Extension(name)| == |name| - k - 1;
      assert name == name[..k] + "." + name[k + 1..];
    }
  }
}
