/** The file-name check applied to an upload before it is read as a table. */
module Upload {

  /** Lower-casing of one character.  Only A-Z change; no other character lower-cases to
      one of the letters of "csv", so this decides the comparison below exactly. */
  function LowerChar(c: char): char
  {
    if 'A' <= c <= 'Z' then (c as int + 32) as char else c
  }

  function Lower(s: string): (r: string)
    ensures |r| == |s|
    ensures forall i :: 0 <= i < |s| ==> r[i] == LowerChar(s[i])
  {
    if s == [] then [] else [LowerChar(s[0])] + Lower(s[1..])
  }

  /** Position of the last '.' in `s`, or -1 when there is none. */
  function LastDot(s: string): (k: int)
    ensures -1 <= k < |s|
    ensures k >= 0 ==> s[k] == '.' && forall j :: k < j < |s| ==> s[j] != '.'
    ensures k == -1 <==> '.' !in s
  {
    if s == [] then -1
    else if s[|s| - 1] == '.' then |s| - 1
    else LastDot(s[..|s| - 1])
  }

  /** `name.rsplit('.', 1)[1]`: the text after the last dot (a name with a dot only). */
  function Extension(name: string): (ext: string)
    requires '.' in name
    ensures '.' !in ext
    ensures |ext| < |name|
    ensures name == name[..|name| - |ext| - 1] + "." + ext
  {
    var k := LastDot(name);
    assert name == name[..k] + "." + name[k + 1..];
    name[k + 1..]
  }

  /** An upload is accepted when its name has a dot and its extension, lower-cased, is "csv". */
  function AllowedFile(name: string): bool
  {
    '.' in name && Lower(Extension(name)) == "csv"
  }

  /** The check accepts exactly the names that end in '.' followed by three characters
      that lower-case to "csv". */
  lemma AllowedFileIff(name: string)
    ensures AllowedFile(name) <==>
      |name| >= 4 && name[|name| - 4] == '.' && Lower(name[|name| - 3..]) == "csv"
  {
    var n := |name|;
    if AllowedFile(name) {
      var ext := Extension(name);
      assert |ext| == 3;
      assert name[n - 4] == '.';
      assert name[n - 3..] == ext;
    }
    if n >= 4 && name[n - 4] == '.' && Lower(name[n - 3..]) == "csv" {
      var tail := name[n - 3..];
      assert '.' in name;
      forall j | n - 4 < j < n
        ensures name[j] != '.'
      {
        assert tail[j - (n - 3)] == name[j];
        assert Lower(tail)[j - (n - 3)] in "csv";
      }
      assert LastDot(name) == n - 4;
      assert Extension(name) == tail;
    }
  }

  lemma AcceptedExamples()
    ensures AllowedFile("a.CSV") && AllowedFile(".csv")
  {
    assert Lower("CSV") == "csv";
    AllowedFileIff("a.CSV");
    assert "a.CSV"[5 - 3..] == "CSV";
    AllowedFileIff(".csv");
    assert ".csv"[4 - 3..] == "csv";
  }

  lemma RejectedExamples()
    ensures !AllowedFile("csv") && !AllowedFile("a.") && !AllowedFile("a.csv.txt")
  {
    AllowedFileIff("csv");
    AllowedFileIff("a.");
    AllowedFileIff("a.csv.txt");
    assert "a.csv.txt"[9 - 3..] == "txt" && Lower("txt") == "txt";
  }
}
