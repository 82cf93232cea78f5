// The platform and shop code a call names, brought into the form they are stored in.

module ShopIdentity {
  import opened Wrappers
  import Text

  datatype Shop = Shop(platform: string, code: string)

  predicate IsPlatform(s: string) {
    s == "temu" || s == "shein"
  }

  predicate IsCodeChar(c: char) {
    'a' <= c <= 'z' || '0' <= c <= '9' || c == '-'
  }

  predicate DoubleDash(s: string) {
    exists i :: 0 <= i < |s| && "--" <= s[i..]
  }

  // Words of lower-case letters and digits joined by single dashes.
  predicate IsShopCode(s: string) {
    && s != "" && (forall i :: 0 <= i < |s| ==> IsCodeChar(s[i]))
    && s[0] != '-' && s[|s| - 1] != '-' && !DoubleDash(s)
  }

  function Identity(platform: string, code: string): Option<Shop> {
    var p, c := Text.ToLower(Text.TrimSpace(platform)), Text.ToLower(Text.TrimSpace(code));
    if IsPlatform(p) && IsShopCode(c) then Some(Shop(p, c)) else None
  }

  method Normalize(platform: string, code: string) returns (shop: Option<Shop>)
    ensures shop == Identity(platform, code)
  {
    hide Text.TrimSpace, Text.ToLower, IsCodeChar;
    var p, c := Text.ToLower(Text.TrimSpace(platform)), Text.ToLower(Text.TrimSpace(code));
    if !IsPlatform(p) || c == "" {
      return None;
    }
    for i := 0 to |c|
      invariant forall k :: 0 <= k < i ==> IsCodeChar(c[k])
    {
      if !IsCodeChar(c[i]) {
        return None;
      }
    }
    if c[0] == '-' || c[|c| - 1] == '-' || DoubleDash(c) {
      return None;
    }
    return Some(Shop(p, c));
  }

  // A stored identity is its own normal form.
  lemma IdentityIdempotent(platform: string, code: string)
    requires Identity(platform, code).Some?
    ensures var shop := Identity(platform, code).value;
            Identity(shop.platform, shop.code) == Some(shop)
  {
    var shop := Identity(platform, code).value;
    assert forall i :: 0 <= i < |shop.code| ==> IsCodeChar(shop.code[i]);
    Text.NothingToTrim(shop.platform);
    Text.NothingToTrim(shop.code);
    assert Text.ToLower(shop.platform) == shop.platform && Text.ToLower(shop.code) == shop.code;
  }
}
