/** Derivation of the output file name (get_output_file): the final path
    component of the input keeps everything before its last '.', gains the
    marker ".ppcg", and gets its extension back, so "dir/file.c" becomes
    "file.ppcg.c". An explicit output path is used as it is. */
module OutputFile {
  import opened Common

  /** PATH_MAX on Linux: the size of the buffer the name is assembled in. */
  const PathMax: nat := 4096

  /** The marker inserted before the extension. */
  const PpcgMarker: string := ".ppcg"

  /** The final path component: what follows the last '/', or the whole input. */
  function BaseName(input: string): (base: string)
    ensures '/' !in base
    ensures '/' !in input ==> base == input
  {
    match LastIndexOf(input, '/')
    case None => input
    case Some(k) => input[k + 1..]
  }

  /** What the C code needs to stay defined: the final path component has an
      extension (otherwise strcpy reads from NULL) and the derived name with
      its terminating NUL fits in PATH_MAX characters. */
  predicate NameFits(input: string)
  {
    '.' in BaseName(input) && |BaseName(input)| + |PpcgMarker| < PathMax
  }

  /** Position of the last '.' of a name that has one. */
  function DotOf(s: string): (k: nat)
    requires '.' in s
    ensures k < |s| && s[k] == '.' && '.' !in s[k + 1..]
  {
    LastIndexOf(s, '.').value
  }

  /** The text of a name before its last '.'. */
  function Stem(s: string): string
    requires '.' in s
  {
    s[..DotOf(s)]
  }

  /** The extension of a name, its dot included. */
  function Extension(s: string): string
    requires '.' in s
  {
    s[DotOf(s)..]
  }

  /** The name get_output_file builds when no output path is given. */
  function DerivedName(input: string): string
    requires '.' in BaseName(input)
  {
    Stem(BaseName(input)) + PpcgMarker + Extension(BaseName(input))
  }

  /** The path get_output_file opens. */
  function OutputPath(input: string, output: Option<string>): string
    requires '.' in BaseName(input)
  {
    if output.Some? then output.value else DerivedName(input)
  }

  /** memcpy(dst + off, src, n) on a character buffer. */
  method MemCpy(dst: array<char>, off: nat, src: string, n: nat)
    requires n <= |src| && off + n <= dst.Length
    modifies dst
    ensures dst[..off] == old(dst[..off])
    ensures dst[off..off + n] == src[..n]
    ensures dst[off + n..] == old(dst[off + n..])
  {
    for i := 0 to n
      invariant dst[..off] == old(dst[..off])
      invariant dst[off..off + i] == src[..i]
      invariant dst[off + n..] == old(dst[off + n..])
    {
      dst[off + i] := src[i];
    }
  }

  /** strcpy(dst + off, src): the characters of "src", then the terminating NUL. */
  method StrCpy(dst: array<char>, off: nat, src: string)
    requires off + |src| < dst.Length
    modifies dst
    ensures dst[..off] == old(dst[..off])
    ensures dst[off..off + |src|] == src
    ensures dst[off + |src|] == '\0'
    ensures dst[off + |src| + 1..] == old(dst[off + |src| + 1..])
  {
    MemCpy(dst, off, src, |src|);
    dst[off + |src|] := '\0';
    assert dst[..off] == old(dst[..off]) by {
      assert dst[..off] == dst[..off + |src|][..off];
    }
  }

  /** The buffer work of get_output_file: memcpy the stem, then strcpy the
      marker and the extension behind it into a fresh PATH_MAX buffer. */
  method AssembleName(base: string, len: nat) returns (name: string)
    requires len <= |base| && |base| + |PpcgMarker| < PathMax
    ensures name == base[..len] + PpcgMarker + base[len..]
  {
    var buffer := new char[PathMax];
    var extText := base[len..];
    MemCpy(buffer, 0, base, len);
    ghost var copied := buffer[..];
    StrCpy(buffer, len, PpcgMarker);
    ghost var marked := buffer[..];
    StrCpy(buffer, len + |PpcgMarker|, extText);
    var end := len + |PpcgMarker| + |extText|;
    ghost var full := buffer[..];
    assert copied[..len] == base[..len];
    assert marked[..len + |PpcgMarker|] == base[..len] + PpcgMarker by {
      assert marked[..len] == copied[..len];
      assert marked[len..len + |PpcgMarker|] == PpcgMarker;
      assert marked[..len + |PpcgMarker|] == marked[..len] + marked[len..len + |PpcgMarker|];
    }
    assert full[..end] == base[..len] + PpcgMarker + extText by {
      assert full[..len + |PpcgMarker|] == marked[..len + |PpcgMarker|];
      assert full[len + |PpcgMarker|..end] == extText;
      assert full[..end] == full[..len + |PpcgMarker|] + full[len + |PpcgMarker|..end];
    }
    name := buffer[..end];
  }

  /** get_output_file as written: strrchr for the final path component and
      for its last '.', then the buffer work; the path handed to fopen is
      returned instead of the opened FILE. */
  method GetOutputFile(input: string, output: Option<string>) returns (path: string)
    requires NameFits(input)
    ensures output.Some? ==> path == output.value
    ensures output.None? ==> path == Stem(BaseName(input)) + PpcgMarker + Extension(BaseName(input))
  {
    var slash := LastIndexOf(input, '/');
    var base := input;
    if slash.Some? {
      base := input[slash.value + 1..];
    }
    var ext := LastIndexOf(base, '.');
    var len := |base|;
    if ext.Some? {
      len := ext.value;
    }
    assert base == BaseName(input) && len == DotOf(base);
    var name := AssembleName(base, len);
    if output.Some? {
      path := output.value;
    } else {
      path := name;
    }
  }

  /** A name with the marker put before its last dot has that dot as its
      own last dot: its stem is the old stem and the marker, its extension
      the old extension. */
  lemma MarkerBeforeExtension(base: string)
    requires '.' in base
    ensures var name := Stem(base) + PpcgMarker + Extension(base);
      '.' in name && DotOf(name) == |Stem(base) + PpcgMarker| &&
      Stem(name) == Stem(base) + PpcgMarker && Extension(name) == Extension(base)
  {
    var ext := Extension(base);
    var name := Stem(base) + PpcgMarker + ext;
    assert ext[0] == '.';
    assert LastIndexOf(ext, '.') == Some(0) by {
      assert forall j :: 0 < j < |ext| ==> ext[j] == base[DotOf(base) + 1..][j - 1];
    }
    LastIndexOfConcat(Stem(base) + PpcgMarker, ext, '.');
    assert name[..|Stem(base) + PpcgMarker|] == Stem(base) + PpcgMarker;
  }

  /** Putting the marker into a name without '/' adds no '/'. */
  lemma MarkerAddsNoSlash(base: string)
    requires '.' in base && '/' !in base
    ensures '/' !in Stem(base) + PpcgMarker + Extension(base)
  {
    var name := Stem(base) + PpcgMarker + Extension(base);
    forall j | 0 <= j < |name| ensures name[j] != '/' {
      if j < |Stem(base)| {
        assert name[j] == base[j];
      } else if j >= |Stem(base)| + |PpcgMarker| {
        assert name[j] == base[DotOf(base) + (j - |Stem(base)| - |PpcgMarker|)];
      }
    }
  }

  /** The derived name keeps the extension and the stem of the input's final
      path component, with the marker between them, and has no directory
      part: removing ".ppcg" before the last dot gives back the base name. */
  lemma DerivedNameKeepsStemAndExtension(input: string)
    requires '.' in BaseName(input)
    ensures '/' !in DerivedName(input)
    ensures '.' in DerivedName(input)
    ensures Extension(DerivedName(input)) == Extension(BaseName(input))
    ensures Stem(DerivedName(input)) == Stem(BaseName(input)) + PpcgMarker
    ensures Stem(BaseName(input)) + Extension(BaseName(input)) == BaseName(input)
  {
    var base := BaseName(input);
    MarkerBeforeExtension(base);
    MarkerAddsNoSlash(base);
    assert base == base[..DotOf(base)] + base[DotOf(base)..];
  }

  /** Directory components, and any dots in them, do not matter. */
  lemma DirectoriesAreDropped(dir: string, base: string)
    requires '/' !in base && '.' in base
    ensures BaseName(dir + "/" + base) == base
    ensures DerivedName(dir + "/" + base) == DerivedName(base)
  {
    var tail := "/" + base;
    assert tail[1..] == base;
    LastIndexOfOnlyFirst(tail, '/');
    LastIndexOfConcat(dir, tail, '/');
    assert dir + "/" + base == dir + tail;
    assert (dir + tail)[|dir| + 1..] == base;
    assert BaseName(base) == base;
  }

  /** A name without directory whose only dot starts its extension gets the
      marker between its stem and that dot. */
  lemma PlainNameGetsMarker(stem: string, ext: string)
    requires '/' !in stem && '/' !in ext && '.' !in ext
    ensures DerivedName(stem + "." + ext) == stem + PpcgMarker + "." + ext
  {
    var tail := "." + ext;
    var name := stem + tail;
    assert stem + "." + ext == name;
    assert '/' !in tail;
    assert tail[1..] == ext;
    LastIndexOfOnlyFirst(tail, '.');
    LastIndexOfConcat(stem, tail, '.');
    assert name[..|stem|] == stem && name[|stem|..] == tail;
  }

  /** The example of the source's comment: "file.c" becomes "file.ppcg.c". */
  lemma FileDotCExample()
    ensures DerivedName("file.c") == "file.ppcg.c"
  {
    var stem, ext := "file", "c";
    assert stem + "." + ext == "file.c";
    assert stem + PpcgMarker + "." + ext == "file.ppcg.c";
    PlainNameGetsMarker(stem, ext);
  }
}
