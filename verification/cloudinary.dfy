/** Media URLs and storage paths on Cloudinary (source/api/cloudinary.js):
    the delivery URL of a stored image or video with its transformation
    segment, and the folder or public id each kind of asset is stored
    under. The application configuration the URL builder reads is a
    parameter. */
module Cloudinary {
  import opened Wrappers
  import opened Text
  import opened Js

  /** The image shown when there is nothing to build a URL from. */
  const DefaultImage := "./localstore/images/default-product.jpg"

  /** The delivery host used when the configuration names none. */
  const DefaultBase := "https://res.cloudinary.com"

  /** The `cloudinary` part of the application configuration; the empty
      string stands for a missing entry. */
  datatype CloudConfig = CloudConfig(cloudName: string, baseUrl: string)

  /** Cloudinary's short name for an option key: the five known keys are
      shortened, an inherited property of the lookup table prints as its
      own text, any other key is kept. */
  function ShortKey(key: string): (r: string)
    ensures key !in PrototypeKeys && key !in {"width", "height", "crop", "quality", "format"} ==> r == key
    ensures |r| > 0 || key == ""
  {
    if key == "width" then "w"
    else if key == "height" then "h"
    else if key == "crop" then "c"
    else if key == "quality" then "q"
    else if key == "format" then "f"
    else if key in PrototypeKeys then InheritedText(key)
    else key
  }

  /** The `short_value` token of one option. */
  function Token(key: string, value: Value): string {
    ShortKey(key) + "_" + ToStr(value)
  }

  function Tokens(options: seq<(string, Value)>): (r: seq<string>)
    ensures |r| == |options|
  {
    seq(|options|, i requires 0 <= i < |options| => Token(options[i].0, options[i].1))
  }

  /** The transformation segment: the tokens of the options, in order,
      joined by commas. */
  function Transformations(options: seq<(string, Value)>): string {
    Join(Tokens(options), ",")
  }

  /** `buildCloudinaryUrl(publicId, options, resourceType)`. */
  function BuildUrl(config: CloudConfig, publicId: string, options: seq<(string, Value)>, resourceType: string): string {
    if config.cloudName == "" || publicId == "" then DefaultImage
    else
      var baseUrl := if config.baseUrl != "" then config.baseUrl else DefaultBase;
      var transformations := Transformations(options);
      var urlParts := [baseUrl, config.cloudName, resourceType, "upload"]
        + (if transformations != "" then [transformations] else [])
        + [publicId];
      Join(urlParts, "/")
  }

  /** Options give a transformation segment exactly when there are any. */
  lemma TransformationsEmpty(options: seq<(string, Value)>)
    ensures Transformations(options) == "" <==> options == []
  {
    if options != [] {
      var tokens := Tokens(options);
      JoinStartsWith(tokens, ",");
      assert tokens[0] == Token(options[0].0, options[0].1);
      assert |tokens[0]| > 0;
    }
  }

  /** No shortened key holds a comma unless the key does. */
  lemma ShortKeyNoComma(key: string)
    requires ',' !in key
    ensures ',' !in ShortKey(key)
  {
    NativeTextNoComma();
    if key in PrototypeKeys && key != "__proto__" {
      var name := if key == "constructor" then "Object" else key;
      assert InheritedText(key) == "function " + name + "() { [native code] }";
    }
  }

  lemma NativeTextNoComma()
    ensures ',' !in "function " && ',' !in "() { [native code] }"
    ensures ',' !in "Object" && ',' !in "[object Object]"
  {
  }

  /** The transformation segment splits back into one token per option when
      no key or value text holds a comma. */
  lemma TransformationsSplit(options: seq<(string, Value)>)
    requires options != []
    requires forall i :: 0 <= i < |options| ==> ',' !in options[i].0 && ',' !in ToStr(options[i].1)
    ensures Split(Transformations(options), ",") == Tokens(options)
  {
    var tokens := Tokens(options);
    forall i | 0 <= i < |tokens| ensures !Contains(tokens[i], ",") {
      ShortKeyNoComma(options[i].0);
      var t := tokens[i];
      assert t == ShortKey(options[i].0) + "_" + ToStr(options[i].1);
      assert ',' !in t;
      AbsentChar(t, ",", 0);
    }
    SplitJoin(tokens, ",");
  }

  /** Joining four leading parts before a non-empty rest. */
  lemma JoinFour(a: string, b: string, c: string, d: string, tail: seq<string>, sep: string)
    requires tail != []
    ensures Join([a, b, c, d] + tail, sep) == a + sep + b + sep + c + sep + d + sep + Join(tail, sep)
  {
    var parts := [a, b, c, d] + tail;
    assert parts[1..] == [b, c, d] + tail;
    assert parts[2..] == [c, d] + tail;
    assert parts[3..] == [d] + tail;
    assert parts[4..] == tail;
    assert Join(parts[3..], sep) == d + sep + Join(tail, sep);
    assert Join(parts[2..], sep) == c + sep + (d + sep + Join(tail, sep));
    assert Join(parts[1..], sep) == b + sep + (c + sep + (d + sep + Join(tail, sep)));
  }

  /** Without a cloud name or a public id the URL is the default image;
      otherwise it is the delivery host, the cloud, the resource type and
      `upload`, then the transformation segment when there are options,
      then the public id, all joined by `/`. */
  lemma UrlShape(config: CloudConfig, publicId: string, options: seq<(string, Value)>, resourceType: string)
    ensures config.cloudName == "" || publicId == "" ==> BuildUrl(config, publicId, options, resourceType) == DefaultImage
    ensures config.cloudName != "" && publicId != "" ==>
      var baseUrl := if config.baseUrl != "" then config.baseUrl else DefaultBase;
      BuildUrl(config, publicId, options, resourceType) ==
        baseUrl + "/" + config.cloudName + "/" + resourceType + "/" + "upload" + "/"
        + (if options != [] then Transformations(options) + "/" else "") + publicId
  {
    TransformationsEmpty(options);
    if config.cloudName != "" && publicId != "" {
      var baseUrl := if config.baseUrl != "" then config.baseUrl else DefaultBase;
      var t := Transformations(options);
      var tail := if t != "" then [t, publicId] else [publicId];
      assert Join(tail, "/") == (if t != "" then t + "/" else "") + publicId by {
        if t != "" {
          assert tail[1..] == [publicId];
        }
      }
      assert [baseUrl, config.cloudName, resourceType, "upload"] + (if t != "" then [t] else []) + [publicId]
        == [baseUrl, config.cloudName, resourceType, "upload"] + tail;
      JoinFour(baseUrl, config.cloudName, resourceType, "upload", tail, "/");
    }
  }

  // ---------------------------------------------------------------------------
  // Storage paths
  // ---------------------------------------------------------------------------

  /** Where every asset is stored. */
  const BasePath := "mstore/assets"

  /** The folder every path lies in. */
  const Root := BasePath + "/"

  /** The ids a path is built from; the empty string stands for a missing id. */
  datatype Ids = Ids(userId: string, merchantId: string, itemId: string, postId: string)

  /** `getCloudinaryPath(assetType, ids)`: a public id for the single
      overwritable assets, a folder for collections, and an error naming the
      missing id. */
  function GetCloudinaryPath(assetType: string, ids: Ids): Result<string, string> {
    if assetType == "USER_AVATAR" then
      if ids.userId == "" then Err("User ID is required for USER_AVATAR")
      else Ok(UserFolder(ids) + "avatars/avatar")
    else if assetType == "MERCHANT_LOGO" then
      if ids.merchantId == "" then Err("Merchant ID is required for MERCHANT_LOGO")
      else Ok(MerchantFolder(ids) + "logos/logo")
    else if assetType == "MERCHANT_COVER" then
      if ids.merchantId == "" then Err("Merchant ID is required for MERCHANT_COVER")
      else Ok(MerchantFolder(ids) + "covers/cover")
    else if assetType == "ITEM_IMAGES_FOLDER" then
      if ids.merchantId == "" || ids.itemId == "" then Err("Merchant and Item ID are required for ITEM_IMAGES_FOLDER")
      else Ok(MerchantFolder(ids) + ("items/" + ids.itemId))
    else if assetType == "POST_IMAGES_FOLDER" then
      if ids.merchantId == "" || ids.postId == "" then Err("Merchant and Post ID are required for POST_IMAGES_FOLDER")
      else Ok(MerchantFolder(ids) + ("posts/" + ids.postId))
    else if assetType == "STORY_IMAGES_FOLDER" then
      if ids.merchantId == "" then Err("Merchant ID is required for STORY_IMAGES_FOLDER")
      else Ok(MerchantFolder(ids) + "stories")
    else Ok(Root + "uncategorized")
  }

  /** `${base}/users/${userId}/`. */
  function UserFolder(ids: Ids): string {
    Root + "users/" + ids.userId + "/"
  }

  /** `${base}/merchants/${merchantId}/`. */
  function MerchantFolder(ids: Ids): string {
    Root + "merchants/" + ids.merchantId + "/"
  }

  /** The asset kinds `getCloudinaryPath` knows. */
  const AssetTypes: set<string> := {
    "USER_AVATAR", "MERCHANT_LOGO", "MERCHANT_COVER",
    "ITEM_IMAGES_FOLDER", "POST_IMAGES_FOLDER", "STORY_IMAGES_FOLDER"
  }

  /** The ids each asset kind cannot do without are present. */
  predicate HasRequiredIds(assetType: string, ids: Ids) {
    if assetType == "USER_AVATAR" then ids.userId != ""
    else if assetType == "ITEM_IMAGES_FOLDER" then ids.merchantId != "" && ids.itemId != ""
    else if assetType == "POST_IMAGES_FOLDER" then ids.merchantId != "" && ids.postId != ""
    else if assetType in AssetTypes then ids.merchantId != ""
    else true
  }

  /** A path is refused exactly when a required id is missing; an unknown
      kind always lands in `uncategorized`; every merchant asset lies in the
      merchant's own folder. */
  lemma PathSpec(assetType: string, ids: Ids)
    ensures GetCloudinaryPath(assetType, ids).Err? <==> !HasRequiredIds(assetType, ids)
    ensures assetType !in AssetTypes ==> GetCloudinaryPath(assetType, ids) == Ok(Root + "uncategorized")
    ensures assetType in AssetTypes && assetType != "USER_AVATAR" && GetCloudinaryPath(assetType, ids).Ok? ==>
      StartsWith(GetCloudinaryPath(assetType, ids).value, MerchantFolder(ids))
    ensures assetType == "USER_AVATAR" && GetCloudinaryPath(assetType, ids).Ok? ==>
      StartsWith(GetCloudinaryPath(assetType, ids).value, UserFolder(ids))
    ensures GetCloudinaryPath(assetType, ids).Ok? ==> StartsWith(GetCloudinaryPath(assetType, ids).value, Root)
  {
    var r := GetCloudinaryPath(assetType, ids);
    if r.Ok? {
      if assetType == "USER_AVATAR" {
        AppendPrefix(UserFolder(ids), "avatars/avatar");
        AppendPrefix(Root + "users/" + ids.userId, "/");
        AppendPrefix(Root + "users/", ids.userId);
        AppendPrefix(Root, "users/");
        PrefixChain(r.value, UserFolder(ids), Root + "users/" + ids.userId, Root + "users/", Root);
      } else if assetType in AssetTypes {
        var tail :=
          if assetType == "MERCHANT_LOGO" then "logos/logo"
          else if assetType == "MERCHANT_COVER" then "covers/cover"
          else if assetType == "ITEM_IMAGES_FOLDER" then "items/" + ids.itemId
          else if assetType == "POST_IMAGES_FOLDER" then "posts/" + ids.postId
          else "stories";
        assert r.value == MerchantFolder(ids) + tail;
        AppendPrefix(MerchantFolder(ids), tail);
        AppendPrefix(Root + "merchants/" + ids.merchantId, "/");
        AppendPrefix(Root + "merchants/", ids.merchantId);
        AppendPrefix(Root, "merchants/");
        PrefixChain(r.value, MerchantFolder(ids), Root + "merchants/" + ids.merchantId, Root + "merchants/", Root);
      } else {
        AppendPrefix(Root, "uncategorized");
      }
    }
  }

  lemma AppendPrefix(p: string, t: string)
    ensures StartsWith(p + t, p)
  {
    assert (p + t)[..|p|] == p;
  }

  /** Each string starts with the next. */
  lemma PrefixChain(a: string, b: string, c: string, d: string, e: string)
    requires StartsWith(a, b) && StartsWith(b, c) && StartsWith(c, d) && StartsWith(d, e)
    ensures StartsWith(a, e)
  {
    assert a[..|e|] == b[..|e|] == c[..|e|] == d[..|e|];
  }
}
