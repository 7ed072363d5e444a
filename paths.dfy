/**
  The part of Rust's `Path` the context menu relies on (src/menu.rs:114-116):
  `path.extension() == Some("desktop")`. A path is its sequence of component
  names; its file name is the last component unless that is `.` or `..`, and
  the extension is what follows the last dot of the file name, provided the
  dot is not the file name's first character.
 */
module Paths {
  import opened MenuTypes

  /** `Path::file_name`. */
  function FileName(p: FsPath): Option<string> {
    var c := p.components;
    if |c| == 0 || c[|c| - 1] == "." || c[|c| - 1] == ".." then None else Some(c[|c| - 1])
  }

  /** The index of the last `.` of `s`, if any. */
  function LastDot(s: string): (r: Option<nat>)
    ensures r.None? ==> '.' !in s
    ensures r.Some? ==> r.value < |s| && s[r.value] == '.' && '.' !in s[r.value + 1..]
  {
    if s == [] then None
    else if s[|s| - 1] == '.' then Some(|s| - 1)
    else
      var r := LastDot(s[..|s| - 1]);
      assert s == s[..|s| - 1] + [s[|s| - 1]];
      r
  }

  /** The extension of a file name: after its last dot, unless there is no dot or only a leading one. */
  function Extension(name: string): Option<string> {
    if name == ".." then None
    else match LastDot(name)
      case None => None
      case Some(i) => if i == 0 then None else Some(name[i + 1..])
  }

  /** `path.extension().and_then(|s| s.to_str()) == Some("desktop")`. */
  predicate IsDesktopFile(p: FsPath) {
    match FileName(p)
    case None => false
    case Some(name) => Extension(name) == Some("desktop")
  }

  /**
    A file name has the extension `desktop` exactly when it ends in `.desktop`
    and has at least one character before that suffix (so `.desktop` alone does not).
   */
  lemma DesktopExtensionIff(name: string)
    ensures Extension(name) == Some("desktop") <==> |name| > 8 && name[|name| - 8..] == ".desktop"
  {
    var n := |name|;
    if |name| > 8 && name[n - 8..] == ".desktop" {
      assert name[n - 7..] == name[n - 8..][1..] == "desktop";
      assert '.' !in name[n - 7..];
      assert name[n - 8] == '.';
      assert '.' in name;
      var i := LastDot(name).value;
      assert forall j :: i < j < n ==> name[j] != '.' by {
        forall j | i < j < n ensures name[j] != '.' {
          assert name[j] == name[i + 1..][j - i - 1];
        }
      }
      assert forall j :: n - 8 < j < n ==> name[j] != '.' by {
        forall j | n - 8 < j < n ensures name[j] != '.' {
          assert name[j] == name[n - 7..][j - n + 7];
        }
      }
      assert i == n - 8;
    }
    if Extension(name) == Some("desktop") {
      var i := LastDot(name).value;
      assert name[i + 1..] == "desktop";
      assert name[n - 8..] == [name[i]] + name[i + 1..];
    }
  }

  /** A path names a desktop file exactly when its last component ends in `.desktop` after a non-empty stem. */
  lemma DesktopFileIff(p: FsPath)
    ensures IsDesktopFile(p) <==>
      var c := p.components;
      |c| > 0 && |c[|c| - 1]| > 8 && c[|c| - 1][|c[|c| - 1]| - 8..] == ".desktop"
  {
    var c := p.components;
    if |c| > 0 {
      DesktopExtensionIff(c[|c| - 1]);
    }
  }
}
