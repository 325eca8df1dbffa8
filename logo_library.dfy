/**
 * The logo library's two name rules: a logo saved under a user-typed name
 * keeps only that name's alphanumeric characters and gets ".png" appended,
 * and the library listing shows only the directory entries whose names end
 * in ".png", ".jpg" or ".jpeg". Reading the directory and writing the file
 * are not modelled: the listing takes the directory's names as a sequence.
 */
module LogoLibrary {
  import opened Strings
  import opened Sequences

  /** `c.isalnum()`, restricted to ASCII letters and digits. */
  predicate IsAlnum(c: char)
  {
    'a' <= c <= 'z' || 'A' <= c <= 'Z' || '0' <= c <= '9'
  }

  /**
   * `"".join(x for x in name if x.isalnum())`: the alphanumeric characters
   * of `name`, in order, each kept as often as it occurs, and nothing else.
   */
  function CleanName(name: string): (clean: string)
    ensures forall k :: 0 <= k < |clean| ==> IsAlnum(clean[k])
    ensures IsSubsequence(clean, name)
    ensures forall c :: IsAlnum(c) ==> multiset(clean)[c] == multiset(name)[c]
  {
    Filter(name, IsAlnum)
  }

  /** A name that is already clean is saved unchanged, so cleaning twice changes nothing. */
  lemma CleanNameIdempotent(name: string)
    ensures CleanName(CleanName(name)) == CleanName(name)
    ensures (forall k :: 0 <= k < |name| ==> IsAlnum(name[k])) ==> CleanName(name) == name
  {
    FilterAllKept(CleanName(name), IsAlnum);
    if forall k :: 0 <= k < |name| ==> IsAlnum(name[k]) {
      FilterAllKept(name, IsAlnum);
    }
  }

  /** `f"{clean_name}.png"`: the file the logo is saved as. */
  function SavedFileName(name: string): (file: string)
    ensures EndsWith(file, ".png")
    ensures file[..|file| - 4] == CleanName(name)
    ensures '/' !in file[..|file| - 4] && '.' !in file[..|file| - 4]
  {
    var clean := CleanName(name);
    assert forall c :: c in clean ==> IsAlnum(c);
    clean + ".png"
  }

  /** `f.endswith(('.png', '.jpg', '.jpeg'))`. */
  predicate HasImageExtension(file: string)
  {
    EndsWith(file, ".png") || EndsWith(file, ".jpg") || EndsWith(file, ".jpeg")
  }

  /**
   * The library listing: the directory's image files, in directory order,
   * each as often as it occurs, and nothing else.
   */
  function LibraryListing(files: seq<string>): (logos: seq<string>)
    ensures forall k :: 0 <= k < |logos| ==> HasImageExtension(logos[k])
    ensures IsSubsequence(logos, files)
    ensures forall f :: HasImageExtension(f) ==> multiset(logos)[f] == multiset(files)[f]
  {
    Filter(files, HasImageExtension)
  }

  /** A saved logo always shows up in the library listing. */
  lemma SavedLogoIsListed(name: string, files: seq<string>)
    requires SavedFileName(name) in files
    ensures SavedFileName(name) in LibraryListing(files)
  {
    var file := SavedFileName(name);
    assert HasImageExtension(file);
    assert multiset(files)[file] > 0;
  }
}
