/** The client-side logic of the file list (`FileList.tsx`): the
    case-insensitive search filter and the icon chosen for a MIME type. */
module FileList {
  import opened Strings
  import opened Schema
  import Seqs

  // ---------------------------------------------------------------------------
  // Search

  /** `file.name.toLowerCase().includes(searchTerm.toLowerCase())` */
  predicate NameMatches(f: FileRecord, searchTerm: string) {
    Contains(ToLower(f.name), ToLower(searchTerm))
  }

  /** `filteredFiles` (FileList.tsx:55-57). */
  function FilteredFiles(files: seq<FileRecord>, searchTerm: string): (shown: seq<FileRecord>)
    ensures |shown| <= |files|
    ensures forall f :: f in shown <==> f in files && NameMatches(f, searchTerm)
  {
    Seqs.Filter((f: FileRecord) => NameMatches(f, searchTerm), files)
  }

  /** The files shown keep the order they have in the list. */
  lemma FilteredFilesKeepOrder(files: seq<FileRecord>, searchTerm: string)
    ensures Seqs.IsSubsequence(FilteredFiles(files, searchTerm), files)
  {
    Seqs.FilterIsSubsequence((f: FileRecord) => NameMatches(f, searchTerm), files);
  }

  /** An empty search term shows every file. */
  lemma EmptySearchShowsAll(files: seq<FileRecord>)
    ensures FilteredFiles(files, "") == files
  {
    forall i | 0 <= i < |files| ensures NameMatches(files[i], "") {
      ContainsEmpty(ToLower(files[i].name));
    }
    Seqs.FilterKeepsAll((f: FileRecord) => NameMatches(f, ""), files);
  }

  /** Upper and lower case in the search term make no difference. */
  lemma SearchIgnoresCase(files: seq<FileRecord>, searchTerm: string)
    ensures FilteredFiles(files, searchTerm) == FilteredFiles(files, ToLower(searchTerm))
  {
    ToLowerOfLowercase(ToLower(searchTerm));
    Seqs.FilterSameVerdict((f: FileRecord) => NameMatches(f, searchTerm),
                           (f: FileRecord) => NameMatches(f, ToLower(searchTerm)), files);
  }

  // ---------------------------------------------------------------------------
  // Icons

  datatype Icon =
    | ImageIcon | VideoIcon | AudioIcon | PdfIcon | DocumentIcon
    | SpreadsheetIcon | PresentationIcon | ArchiveIcon | FolderIcon

  /** `getFileIcon` (FileList.tsx:93-104). */
  function GetFileIcon(mimeType: string): (icon: Icon)
    ensures icon == ImageIcon <==> StartsWith(mimeType, "image/")
    ensures icon == FolderIcon ==>
      !StartsWith(mimeType, "image/") && !Contains(mimeType, "pdf")
      && !Contains(mimeType, "zip") && !Contains(mimeType, "compressed")
  {
    if StartsWith(mimeType, "image/") then ImageIcon
    else if StartsWith(mimeType, "video/") then VideoIcon
    else if StartsWith(mimeType, "audio/") then AudioIcon
    else if Contains(mimeType, "pdf") then PdfIcon
    else if Contains(mimeType, "word") || Contains(mimeType, "document") then DocumentIcon
    else if Contains(mimeType, "excel") || Contains(mimeType, "spreadsheet") then SpreadsheetIcon
    else if Contains(mimeType, "powerpoint") || Contains(mimeType, "presentation") then PresentationIcon
    else if Contains(mimeType, "zip") || Contains(mimeType, "compressed") then ArchiveIcon
    else FolderIcon
  }

  /** The classification as a table of rules tried in order. */
  datatype Test = Prefix(prefix: string) | AnyOf(needles: seq<string>)
  datatype Rule = Rule(test: Test, icon: Icon)

  const Rules: seq<Rule> := [
    Rule(Prefix("image/"), ImageIcon),
    Rule(Prefix("video/"), VideoIcon),
    Rule(Prefix("audio/"), AudioIcon),
    Rule(AnyOf(["pdf"]), PdfIcon),
    Rule(AnyOf(["word", "document"]), DocumentIcon),
    Rule(AnyOf(["excel", "spreadsheet"]), SpreadsheetIcon),
    Rule(AnyOf(["powerpoint", "presentation"]), PresentationIcon),
    Rule(AnyOf(["zip", "compressed"]), ArchiveIcon)
  ]

  predicate Passes(t: Test, mimeType: string) {
    match t
    case Prefix(p) => StartsWith(mimeType, p)
    case AnyOf(ns) => exists n :: n in ns && Contains(mimeType, n)
  }

  /** The icon is that of the first rule of the table the type passes. */
  lemma IconOfFirstPassingRule(mimeType: string, i: nat)
    requires i < |Rules| && Passes(Rules[i].test, mimeType)
    requires forall j :: 0 <= j < i ==> !Passes(Rules[j].test, mimeType)
    ensures GetFileIcon(mimeType) == Rules[i].icon
  {
    assert !Passes(Rules[0].test, mimeType) ==> !StartsWith(mimeType, "image/");
    assert !Passes(Rules[1].test, mimeType) ==> !StartsWith(mimeType, "video/");
    assert !Passes(Rules[2].test, mimeType) ==> !StartsWith(mimeType, "audio/");
    assert !Passes(Rules[3].test, mimeType) ==> !Contains(mimeType, "pdf");
    assert !Passes(Rules[4].test, mimeType) ==> !Contains(mimeType, "word") && !Contains(mimeType, "document");
    assert !Passes(Rules[5].test, mimeType) ==> !Contains(mimeType, "excel") && !Contains(mimeType, "spreadsheet");
    assert !Passes(Rules[6].test, mimeType) ==> !Contains(mimeType, "powerpoint") && !Contains(mimeType, "presentation");
  }

  /** A type that passes no rule gets the folder icon. */
  lemma FolderIconWhenNoRulePasses(mimeType: string)
    requires forall j :: 0 <= j < |Rules| ==> !Passes(Rules[j].test, mimeType)
    ensures GetFileIcon(mimeType) == FolderIcon
  {
    assert !Passes(Rules[0].test, mimeType) && !Passes(Rules[1].test, mimeType);
    assert !Passes(Rules[2].test, mimeType) && !Passes(Rules[3].test, mimeType);
    assert !Passes(Rules[4].test, mimeType) && !Passes(Rules[5].test, mimeType);
    assert !Passes(Rules[6].test, mimeType) && !Passes(Rules[7].test, mimeType);
    assert "word" in ["word", "document"] && "document" in ["word", "document"];
    assert "excel" in ["excel", "spreadsheet"] && "spreadsheet" in ["excel", "spreadsheet"];
    assert "powerpoint" in ["powerpoint", "presentation"] && "presentation" in ["powerpoint", "presentation"];
    assert "zip" in ["zip", "compressed"] && "compressed" in ["zip", "compressed"];
  }

  /** Prefixes are tried before substrings: "image/pdf" is an image. */
  lemma ImagePrefixBeatsPdf()
    ensures GetFileIcon("image/pdf") == ImageIcon
  {
    assert "image/pdf"[..6] == "image/";
  }

  /** A type mentioning both "document" and "spreadsheet" gets the document
      icon, since the document rule comes first. */
  lemma DocumentBeatsSpreadsheet(mimeType: string)
    requires !StartsWith(mimeType, "image/") && !StartsWith(mimeType, "video/")
    requires !StartsWith(mimeType, "audio/") && !Contains(mimeType, "pdf")
    requires Contains(mimeType, "document") && Contains(mimeType, "spreadsheet")
    ensures GetFileIcon(mimeType) == DocumentIcon
  {
  }
}
