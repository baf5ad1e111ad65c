/**
 * `AutocompleteEmojiController.buildModels` from features/autocomplete/emoji: the
 * list of Epoxy models shown for emoji autocompletion, cut to a maximum length and
 * followed by a "more results" marker when items were left out.
 */
module AutocompleteEmojiController {
  import opened Wrappers

  // Limits of the controller's companion object.
  const StandardEmojiMax: int := 7
  const CustomThisRoomMax: int := 8
  const CustomOtherRoomMax: int := 5
  const CustomAccountMax: int := 5
  const MaxCustomOtherRooms: int := 15
  const Max: int := 50
  const MaxExpand: int := 10000

  const MoreResultId: string := "more_result"

  /** The fields of `EmojiItem` that go into a model id. */
  datatype EmojiItem = EmojiItem(name: string, mxcUrl: string)

  /** `AutocompleteEmojiDataItem`. */
  datatype AutocompleteEmojiDataItem =
    | Header(id: string, title: string)
    | Emoji(emojiItem: EmojiItem)
    | Expand(loadMoreKey: string, loadMoreKeySecondary: string, count: int)

  /** The Epoxy models the controller adds, with their ids. */
  datatype EpoxyModel =
    | HeaderModel(id: string, title: string)
    | EmojiModel(id: string, emojiItem: EmojiItem)
    | ExpandModel(id: string, count: int)
    | MoreResultModel(id: string)

  /** `take(n)` with a negative `n` throws `IllegalArgumentException`. */
  datatype BuildError = NegativeCount(requested: int)

  /** `buildHeaderItem`, `buildEmojiItem` and `buildExpandItem`. */
  function ModelFor(item: AutocompleteEmojiDataItem): (m: EpoxyModel)
    ensures item.Header? ==> m.HeaderModel? && m.id == "h/" + item.id && m.title == item.title
    ensures item.Emoji? ==> m.EmojiModel? && m.id == "e/" + item.emojiItem.name + "/" + item.emojiItem.mxcUrl && m.emojiItem == item.emojiItem
    ensures item.Expand? ==> m.ExpandModel? && m.id == "x/" + item.loadMoreKey + "/" + item.loadMoreKeySecondary && m.count == item.count
  {
    match item
    case Header(id, title) => HeaderModel("h/" + id, title)
    case Emoji(e) => EmojiModel("e/" + e.name + "/" + e.mxcUrl, e)
    case Expand(key, secondary, count) => ExpandModel("x/" + key + "/" + secondary, count)
  }

  /** The id of each model starts with a prefix naming its kind. */
  lemma ModelIdPrefix(item: AutocompleteEmojiDataItem)
    ensures var m := ModelFor(item);
      m.id[..2] == (match item case Header(_, _) => "h/" case Emoji(_) => "e/" case Expand(_, _, _) => "x/")
      && m.id != MoreResultId
  {
    var m := ModelFor(item);
    assert m.id[0] in {'h', 'e', 'x'} && m.id[1] == '/';
    assert MoreResultId[1] == 'o';
  }

  /** `listener?.maxShowSizeOverride() ?: MAX`. */
  function Limit(maxShowSizeOverride: Option<int>): (max: int)
    ensures maxShowSizeOverride.None? ==> max == Max
    ensures maxShowSizeOverride.Some? ==> max == maxShowSizeOverride.value
  {
    match maxShowSizeOverride
    case Some(n) => n
    case None => Max
  }

  /** `buildModels`: `data` is null when `None`; `maxShowSizeOverride` is `None` when
      there is no listener or it does not override the limit. */
  method BuildModels(data: Option<seq<AutocompleteEmojiDataItem>>, maxShowSizeOverride: Option<int>)
    returns (result: Result<seq<EpoxyModel>, BuildError>)
    ensures data.None? || |data.value| == 0 ==> result == Success([])
    ensures data.Some? && |data.value| > 0 && Limit(maxShowSizeOverride) < 0 ==>
      result == Failure(NegativeCount(Limit(maxShowSizeOverride)))
    ensures data.Some? && |data.value| > 0 && Limit(maxShowSizeOverride) >= 0 ==>
      var items, max := data.value, Limit(maxShowSizeOverride);
      var shown := if |items| < max then |items| else max;
      && result.Success?
      && |result.value| == shown + (if |items| > max then 1 else 0)
      && (forall i :: 0 <= i < shown ==> result.value[i] == ModelFor(items[i]))
      && (|items| > max ==> result.value[shown] == MoreResultModel(MoreResultId))
  {
    if data.None? || |data.value| == 0 {
      return Success([]);
    }
    var items := data.value;
    var max := Limit(maxShowSizeOverride);
    if max < 0 {
      return Failure(NegativeCount(max));
    }
    var taken := if |items| < max then items else items[..max];
    var models: seq<EpoxyModel> := [];
    var i := 0;
    while i < |taken|
      invariant 0 <= i <= |taken|
      invariant |models| == i
      invariant forall j :: 0 <= j < i ==> models[j] == ModelFor(taken[j])
    {
      models := models + [ModelFor(taken[i])];
      i := i + 1;
    }
    if |items| > max {
      models := models + [MoreResultModel(MoreResultId)];
    }
    return Success(models);
  }
}
