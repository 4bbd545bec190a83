/**
 * The web UI's file icon: the file's extension (the text after its last '.',
 * lower-cased) looked up in a fixed table, with a folder icon for anything
 * the table does not list.
 */
module FileIcon {
  import opened Text

  /** The icons getFileIcon can return. */
  datatype Icon = Document | Word | Sheet | Slides | Image | Video | Audio | Archive | Folder

  /** The emoji each icon is drawn with. */
  function Glyph(i: Icon): string {
    match i
    case Document => "📄"
    case Word => "📝"
    case Sheet => "📊"
    case Slides => "📈"
    case Image => "🖼️"
    case Video => "🎥"
    case Audio => "🎵"
    case Archive => "📦"
    case Folder => "📁"
  }

  /** fileName.split('.').pop(), lower-cased: the whole name when it has no '.'. */
  function Extension(fileName: string): string {
    ToLower(AfterLast(fileName, '.'))
  }

  /** The table's own entries, with the folder for an extension it does not list. */
  function TableIcon(ext: string): Icon {
    if ext == "pdf" || ext == "txt" then Document
    else if ext == "doc" || ext == "docx" then Word
    else if ext == "xls" || ext == "xlsx" then Sheet
    else if ext == "ppt" || ext == "pptx" then Slides
    else if ext == "jpg" || ext == "jpeg" || ext == "png" || ext == "gif" || ext == "svg" then Image
    else if ext == "mp4" || ext == "avi" || ext == "mov" then Video
    else if ext == "mp3" || ext == "wav" || ext == "flac" then Audio
    else if ext == "zip" || ext == "rar" || ext == "7z" then Archive
    else Folder
  }

  /** The extensions the table lists. */
  predicate Listed(ext: string) {
    || ext == "pdf" || ext == "txt" || ext == "doc" || ext == "docx" || ext == "xls" || ext == "xlsx"
    || ext == "ppt" || ext == "pptx" || ext == "jpg" || ext == "jpeg" || ext == "png" || ext == "gif" || ext == "svg"
    || ext == "mp4" || ext == "avi" || ext == "mov" || ext == "mp3" || ext == "wav" || ext == "flac"
    || ext == "zip" || ext == "rar" || ext == "7z"
  }

  /** Exactly the extensions the table does not list get the folder. */
  lemma FolderUnlisted(ext: string)
    ensures TableIcon(ext) == Folder <==> !Listed(ext)
  {
  }

  // ---- getFileIcon as written: a plain object used as the table ----

  /**
   * Looking a key up in a JavaScript object literal also finds what the
   * object inherits from Object.prototype. Of those properties, the ones
   * whose names are already lower case (and so can come out of
   * toLowerCase) are "constructor" and "__proto__"; both hold objects,
   * which are truthy, so `|| '📁'` does not replace them.
   */
  predicate Inherited(ext: string) {
    ext == "constructor" || ext == "__proto__"
  }

  /** What the object lookup yields: a table entry, or an inherited property (a function or an object). */
  datatype Lookup = Own(icon: Icon) | InheritedProperty(name: string)

  /** getFileIcon exactly as written. */
  function GetFileIconAsWritten(fileName: string): (r: Lookup)
    ensures r.InheritedProperty? <==> Inherited(Extension(fileName))
    ensures r.Own? ==> r.icon == TableIcon(Extension(fileName))
  {
    var ext := Extension(fileName);
    if Inherited(ext) then InheritedProperty(ext) else Own(TableIcon(ext))
  }

  /** A file named "notes.constructor" gets Object.prototype.constructor, not an icon. */
  lemma AsWrittenInheritedIcon()
    ensures GetFileIconAsWritten("notes.constructor") == InheritedProperty("constructor")
  {
    var ext := "constructor";
    assert "notes.constructor" == "notes" + ['.'] + ext;
    AfterLastAppend("notes", '.', ext);
    ToLowerNoUpper(ext);
  }

  /** getFileIcon as intended: only the table's own entries count, and anything else is a folder. */
  function GetFileIcon(fileName: string): (r: Icon)
    ensures !Inherited(Extension(fileName)) ==> GetFileIconAsWritten(fileName) == Own(r)
  {
    TableIcon(Extension(fileName))
  }

  /** For a name "<base>.<ext>" with no '.' in ext, the icon is the table's entry for ext in lower case. */
  lemma DottedName(base: string, ext: string)
    requires forall i :: 0 <= i < |ext| ==> ext[i] != '.'
    ensures GetFileIcon(base + "." + ext) == TableIcon(ToLower(ext))
  {
    assert base + "." + ext == base + ['.'] + ext;
    AfterLastAppend(base, '.', ext);
  }

  /** A name without a '.' is its own extension: a file called "zip" gets TableIcon("zip"), the archive icon. */
  lemma UndottedName(name: string)
    requires forall i :: 0 <= i < |name| ==> name[i] != '.'
    ensures GetFileIcon(name) == TableIcon(ToLower(name))
  {
    AfterLastNone(name, '.');
  }

  /** A name that ends with '.' has an empty extension, which the table does not list. */
  lemma TrailingDot(base: string)
    ensures GetFileIcon(base + ".") == Folder
  {
    DottedName(base, "");
    assert base + "." + "" == base + ".";
  }

  /** The lookup ignores case: a name and its lower-cased form get the same icon. */
  lemma CaseInsensitive(fileName: string)
    ensures GetFileIcon(ToLower(fileName)) == GetFileIcon(fileName)
  {
    AfterLastLower(fileName, '.');
    ToLowerIdempotent(AfterLast(fileName, '.'));
  }

  /** The text after the last sep of "<s><sep><t>" is t, when t holds no sep. */
  lemma {:induction false} AfterLastAppend(s: string, sep: char, t: string)
    requires forall i :: 0 <= i < |t| ==> t[i] != sep
    ensures AfterLast(s + [sep] + t, sep) == t
    decreases |t|
  {
    var w := s + [sep] + t;
    if t != [] {
      var t' := t[..|t| - 1];
      assert w[..|w| - 1] == s + [sep] + t';
      AfterLastAppend(s, sep, t');
      assert t == t' + [t[|t| - 1]];
    }
  }

  /** A string without sep is its own last part. */
  lemma AfterLastNone(s: string, sep: char)
    requires forall i :: 0 <= i < |s| ==> s[i] != sep
    ensures AfterLast(s, sep) == s
  {
    var r := AfterLast(s, sep);
    assert |r| == |s|;
  }

  /** Lower-casing works character by character, so it distributes over concatenation. */
  lemma {:induction false} ToLowerAppend(a: string, b: string)
    ensures ToLower(a + b) == ToLower(a) + ToLower(b)
    decreases |a|
  {
    if a != [] {
      assert (a + b)[1..] == a[1..] + b;
      ToLowerAppend(a[1..], b);
    } else {
      assert a + b == b;
    }
  }

  /** The part after the last separator commutes with lower-casing, for a separator that is not a letter. */
  lemma {:induction false} AfterLastLower(s: string, sep: char)
    requires !('A' <= sep <= 'Z') && !('a' <= sep <= 'z')
    ensures AfterLast(ToLower(s), sep) == ToLower(AfterLast(s, sep))
    decreases |s|
  {
    if |s| > 0 {
      var p, c := s[..|s| - 1], s[|s| - 1];
      var l := ToLower(s);
      assert l == ToLower(p) + [LowerChar(c)] by {
        assert s == p + [c];
        ToLowerAppend(p, [c]);
      }
      assert AfterLast(l, sep) == if LowerChar(c) == sep then "" else AfterLast(ToLower(p), sep) + [LowerChar(c)] by {
        assert l[..|l| - 1] == ToLower(p);
      }
      assert AfterLast(s, sep) == if c == sep then "" else AfterLast(p, sep) + [c];
      if c == sep {
        assert LowerChar(c) == sep;
      } else {
        assert LowerChar(c) != sep;
        AfterLastLower(p, sep);
        ToLowerAppend(AfterLast(p, sep), [c]);
        assert ToLower([c]) == [LowerChar(c)];
      }
    }
  }
}
