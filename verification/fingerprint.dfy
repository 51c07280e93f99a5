/** The name-and-size fingerprint (nameHasher), with the size passed in instead of read by
    a stat of the path. */
module Fingerprint {
  import opened Types
  import Text

  /** The key nameHasher formats: the base name, "-", then the size printed with %d. */
  function NameKey(path: string, size: int): string {
    Text.Base(path) + "-" + Text.FormatInt(size)
  }

  /** nameHasher: the pair sent to the aggregator carries the key and the path unchanged. */
  function NameHasher(path: string, size: int): (p: Pair)
    ensures p.path == path
    ensures size >= 0 ==> ParseKey(p.hash) == Some((Text.Base(path), size as nat))
  {
    if size >= 0 then ParseNameKey(path, size); Pair(NameKey(path, size), path)
    else Pair(NameKey(path, size), path)
  }

  /** Reads a key back: the text before its last "-" and the number after it. */
  function ParseKey(key: string): Option<(string, nat)> {
    var i := Text.LastIndex(key, '-');
    if i < 0 || key[i + 1..] == [] || !Text.IsDigits(key[i + 1..]) then None
    else Some((key[..i], Text.ParseDecimal(key[i + 1..])))
  }

  /** A key splits back into the base name and the size it was built from, even when
      the base name itself contains "-". */
  lemma ParseNameKey(path: string, size: nat)
    ensures ParseKey(NameKey(path, size)) == Some((Text.Base(path), size))
  {
    var b, d := Text.Base(path), Text.Decimal(size);
    var key := NameKey(path, size);
    assert key == b + "-" + d;
    var i := Text.LastIndex(key, '-');
    assert key[|b|] == '-';
    assert i == |b|;
    assert key[..i] == b && key[i + 1..] == d;
    Text.ParseDecimalOfDecimal(size);
  }

  /** Two files share a name key exactly when their base names and sizes agree. */
  lemma NameKeyIdentity(path1: string, size1: nat, path2: string, size2: nat)
    ensures NameKey(path1, size1) == NameKey(path2, size2) <==>
            Text.Base(path1) == Text.Base(path2) && size1 == size2
  {
    ParseNameKey(path1, size1);
    ParseNameKey(path2, size2);
  }
}
