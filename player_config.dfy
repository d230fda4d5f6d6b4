/** The fixed url-parameter defaults of the YouTube player. */
module PlayerDefaults {
  import opened PhpArray

  /** The url-parameter defaults, in the order the provider lists them. */
  const DefaultPlayerUrlParameters: Table := [
    ("rel", Int(0)),
    ("autoplay", Int(0)),
    ("loop", Int(0)),
    ("enablejsapi", Int(0)),
    ("playerapiid", Null),
    ("disablekb", Int(0)),
    ("egm", Int(0)),
    ("border", Int(0)),
    ("color1", Null),
    ("color2", Null),
    ("fs", Int(1)),
    ("start", Int(0)),
    ("hd", Int(1)),
    ("showsearch", Int(0)),
    ("showinfo", Int(0)),
    ("iv_load_policy", Int(1)),
    ("cc_load_policy", Int(1)),
    ("wmode", Str("window"))
  ]
}

/**
 * YouTubeProvider::getHelperProperties: the embeddable player configuration for a media and a
 * display format. Three layers are merged: the fixed url-parameter defaults with the caller's
 * `player_url_parameters`; the fixed player defaults with the caller's `player_parameters`; and the
 * box dimensions, merged last so that they always win. The url parameters are then serialised
 * with `http_build_query`.
 */
module PlayerConfig {
  import opened Wrappers
  import opened PhpArray
  import opened HttpQuery
  import opened PlayerDefaults

  /** Width and height the box resolver gives for a media, a format and the options. */
  datatype Box = Box(width: int, height: int)

  /**
   * The `$options` array. `Null` stands for a key that is absent or null: `isset` and `??` treat
   * the two alike. The two tables are absent or arrays.
   */
  datatype Options = Options(
    html5: Value,
    allowScriptAccess: Value,
    playerUrlParameters: Option<Table>,
    playerParameters: Option<Table>)

  /** The array getHelperProperties returns. */
  datatype HelperProperties = HelperProperties(
    html5: Value,
    playerUrlParameters: string,
    playerParameters: Table)

  /**
   * The player defaults. `border` and `wmode` are copied from the url-parameter DEFAULTS, not from
   * the merged url parameters; `allowScriptAccess` is the option's value unless that is null.
   */
  function DefaultPlayerParameters(options: Options): (r: Table)
    ensures |r| == 4
    ensures r[0].1 == DefaultPlayerUrlParameters[7].1 && r[3].1 == DefaultPlayerUrlParameters[17].1
    ensures r[2].1 == if options.allowScriptAccess.Null? then Str("always") else options.allowScriptAccess
  {
    [
      ("border", Int(0)),
      ("allowFullScreen", Bool(true)),
      ("allowScriptAccess", if options.allowScriptAccess.Null? then Str("always") else options.allowScriptAccess),
      ("wmode", Str("window"))
    ]
  }

  /** The url-parameter defaults merged with the caller's overrides: the keys of both, no other. */
  function PlayerUrlParameters(options: Options): (r: Table)
    ensures forall k :: k in Keys(r) <==>
      k in Keys(DefaultPlayerUrlParameters) || k in Keys(options.playerUrlParameters.GetOr([]))
  {
    ArrayMergeKeys(DefaultPlayerUrlParameters, options.playerUrlParameters.GetOr([]));
    ArrayMerge(DefaultPlayerUrlParameters, options.playerUrlParameters.GetOr([]))
  }

  /**
   * `array_merge($defaults, $overrides, ['width' => …, 'height' => …])`: the keys of the player
   * defaults, of the overrides, and the two dimensions, no other.
   */
  function PlayerParameters(options: Options, box: Box): (r: Table)
    ensures forall k :: k in Keys(r) <==>
      k in Keys(DefaultPlayerParameters(options)) || k in Keys(options.playerParameters.GetOr([]))
      || k == "width" || k == "height"
  {
    var base := ArrayMerge(DefaultPlayerParameters(options), options.playerParameters.GetOr([]));
    var dims: Table := [("width", Int(box.width)), ("height", Int(box.height))];
    ArrayMergeKeys(DefaultPlayerParameters(options), options.playerParameters.GetOr([]));
    ArrayMergeKeys(base, dims);
    assert Keys(dims) == ["width", "height"];
    ArrayMerge(base, dims)
  }

  /**
   * getHelperProperties. `providerHtml5` is the flag the provider was built with; `box` is what
   * the box resolver returns; `encode` is the URL encoder `http_build_query` applies.
   */
  function GetHelperProperties(providerHtml5: bool, options: Options, box: Box, encode: string -> string)
    : (r: HelperProperties)
    ensures options.html5 != Null ==> r.html5 == options.html5
    ensures options.html5 == Null ==> r.html5 == Bool(providerHtml5)
    ensures EncodesSeparators(encode) && |QueryPairs(PlayerUrlParameters(options), encode)| > 0 ==>
      SplitAmp(r.playerUrlParameters) == QueryPairs(PlayerUrlParameters(options), encode)
    ensures forall k :: k in Keys(r.playerParameters) <==> k in Keys(PlayerParameters(options, box))
  {
    HelperProperties(
      if options.html5.Null? then Bool(providerHtml5) else options.html5,
      HttpBuildQuery(PlayerUrlParameters(options), encode),
      PlayerParameters(options, box))
  }

  // ---------------------------------------------------------------------------------------------
  // Properties.
  // ---------------------------------------------------------------------------------------------

  /** The url-parameter defaults are eighteen entries with no key twice. */
  lemma UrlDefaultsUnique()
    ensures |DefaultPlayerUrlParameters| == 18
    ensures HasUniqueKeys(DefaultPlayerUrlParameters)
  {
  }

  /**
   * Exactly three url-parameter defaults are null, `playerapiid`, `color1` and `color2`, so the
   * query string leaves them out unless the caller sets them.
   */
  lemma UrlDefaultsNulls()
    ensures forall j :: 0 <= j < |DefaultPlayerUrlParameters| ==>
      (DefaultPlayerUrlParameters[j].1.Null? <==> j == 4 || j == 8 || j == 9)
    ensures DefaultPlayerUrlParameters[4].0 == "playerapiid"
    ensures DefaultPlayerUrlParameters[8].0 == "color1" && DefaultPlayerUrlParameters[9].0 == "color2"
  {
  }

  /**
   * An url-parameter override replaces the default of its key, every other default survives, and
   * the defaults keep their order at the front.
   */
  lemma UrlOverridesReplaceDefaults(options: Options, k: string)
    ensures var overrides := options.playerUrlParameters.GetOr([]);
      Find(PlayerUrlParameters(options), k) ==
        if k in Keys(overrides) then Find(overrides, k) else Find(DefaultPlayerUrlParameters, k)
    ensures Keys(PlayerUrlParameters(options))[..|DefaultPlayerUrlParameters|] == Keys(DefaultPlayerUrlParameters)
  {
    ArrayMergeFind(DefaultPlayerUrlParameters, options.playerUrlParameters.GetOr([]), k);
  }

  /** The final width and height are the box's, whatever the `player_parameters` overrides say. */
  lemma BoxDimensionsWin(options: Options, box: Box)
    ensures Find(PlayerParameters(options, box), "width") == Some(Int(box.width))
    ensures Find(PlayerParameters(options, box), "height") == Some(Int(box.height))
  {
    var base := ArrayMerge(DefaultPlayerParameters(options), options.playerParameters.GetOr([]));
    var dims: Table := [("width", Int(box.width)), ("height", Int(box.height))];
    ArrayMergeFind(base, dims, "width");
    ArrayMergeFind(base, dims, "height");
  }

  /**
   * Without a `player_parameters` override of it, `allowScriptAccess` is the option's value, and
   * `always` when the option is absent or null.
   */
  lemma AllowScriptAccessDefault(options: Options, box: Box)
    requires "allowScriptAccess" !in Keys(options.playerParameters.GetOr([]))
    ensures Find(PlayerParameters(options, box), "allowScriptAccess") ==
      Some(if options.allowScriptAccess == Null then Str("always") else options.allowScriptAccess)
  {
    var overrides := options.playerParameters.GetOr([]);
    var base := ArrayMerge(DefaultPlayerParameters(options), overrides);
    var dims: Table := [("width", Int(box.width)), ("height", Int(box.height))];
    ScriptAccessDefault(options);
    ArrayMergeFind(base, dims, "allowScriptAccess");
    ArrayMergeFind(DefaultPlayerParameters(options), overrides, "allowScriptAccess");
  }

  lemma ScriptAccessDefault(options: Options)
    ensures Find(DefaultPlayerParameters(options), "allowScriptAccess") == Some(DefaultPlayerParameters(options)[2].1)
  {
    assert |"allowScriptAccess"| == 17 && |"allowFullScreen"| == 15;
  }

  /**
   * The player's `border` does not follow the url-parameter overrides: without a
   * `player_parameters` override it is the fixed default 0.
   */
  lemma PlayerBorderIgnoresUrlOverrides(options: Options, box: Box)
    requires "border" !in Keys(options.playerParameters.GetOr([]))
    ensures Find(PlayerParameters(options, box), "border") == Some(Int(0))
  {
    var overrides := options.playerParameters.GetOr([]);
    var defaults := DefaultPlayerParameters(options);
    var base := ArrayMerge(defaults, overrides);
    var dims: Table := [("width", Int(box.width)), ("height", Int(box.height))];
    assert Keys(dims) == ["width", "height"];
    ArrayMergeFind(base, dims, "border");
    ArrayMergeFind(defaults, overrides, "border");
  }

  /**
   * Likewise the player's `wmode`: without a `player_parameters` override it is `window`, whatever
   * `player_url_parameters` says.
   */
  lemma PlayerWmodeIgnoresUrlOverrides(options: Options, box: Box)
    requires "wmode" !in Keys(options.playerParameters.GetOr([]))
    ensures Find(PlayerParameters(options, box), "wmode") == Some(Str("window"))
  {
    var overrides := options.playerParameters.GetOr([]);
    var defaults := DefaultPlayerParameters(options);
    var base := ArrayMerge(defaults, overrides);
    var dims: Table := [("width", Int(box.width)), ("height", Int(box.height))];
    assert Keys(dims) == ["width", "height"];
    assert "wmode" !in Keys(dims);
    assert HasUniqueKeys(defaults);
    FindEntry(defaults, 3);
    ArrayMergeFind(base, dims, "wmode");
    ArrayMergeFind(defaults, overrides, "wmode");
  }

  /** The player parameters are a PHP array: no key twice, when the overrides have none twice. */
  lemma PlayerParametersUnique(options: Options, box: Box)
    requires HasUniqueKeys(options.playerParameters.GetOr([]))
    ensures HasUniqueKeys(PlayerParameters(options, box))
  {
    var defaults := DefaultPlayerParameters(options);
    var dims: Table := [("width", Int(box.width)), ("height", Int(box.height))];
    assert HasUniqueKeys(defaults);
    assert HasUniqueKeys(dims);
    ArrayMergeUnique(defaults, options.playerParameters.GetOr([]));
    ArrayMergeUnique(ArrayMerge(defaults, options.playerParameters.GetOr([])), dims);
  }

  /** Without url-parameter overrides the merged url parameters are the defaults themselves. */
  lemma NoUrlOverridesKeepDefaults(options: Options)
    requires options.playerUrlParameters.None? || options.playerUrlParameters == Some([])
    ensures PlayerUrlParameters(options) == DefaultPlayerUrlParameters
  {
    assert options.playerUrlParameters.GetOr([]) == [];
    ArrayMergeEmpty(DefaultPlayerUrlParameters);
  }

  /** A default the caller does not override keeps its key, value and position. */
  lemma UrlDefaultKept(options: Options, j: nat)
    requires j < |DefaultPlayerUrlParameters|
    requires DefaultPlayerUrlParameters[j].0 !in Keys(options.playerUrlParameters.GetOr([]))
    ensures j < |PlayerUrlParameters(options)|
    ensures PlayerUrlParameters(options)[j] == DefaultPlayerUrlParameters[j]
  {
    ArrayMergeAt(DefaultPlayerUrlParameters, options.playerUrlParameters.GetOr([]), j);
  }

  /**
   * A non-null default the caller does not override is one of the `key=value` pieces a receiver
   * reads back from the query string.
   */
  lemma DefaultInQuery(options: Options, encode: string -> string, j: nat)
    requires EncodesSeparators(encode)
    requires j < |DefaultPlayerUrlParameters| && !DefaultPlayerUrlParameters[j].1.Null?
    requires DefaultPlayerUrlParameters[j].0 !in Keys(options.playerUrlParameters.GetOr([]))
    ensures PairText(DefaultPlayerUrlParameters[j].0, DefaultPlayerUrlParameters[j].1, encode)
      in SplitAmp(HttpBuildQuery(PlayerUrlParameters(options), encode))
  {
    var t := PlayerUrlParameters(options);
    var p := PairText(DefaultPlayerUrlParameters[j].0, DefaultPlayerUrlParameters[j].1, encode);
    UrlDefaultKept(options, j);
    QueryPairsMembers(t, encode, p);
  }
}
