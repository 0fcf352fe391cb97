/** The persisted choice of model: one string under the key "selected_model". */
module WhisperPreferences {
  import opened Util

  const SelectedModelKey: string := "selected_model"
  const DefaultModel: string := "base"

  class WhisperPreferencesManager {
    /** The stored value of the key, `None` when never written. */
    var stored: Option<string>

    constructor (stored: Option<string>)
      ensures this.stored == stored
    {
      this.stored := stored;
    }

    /** `getSelectedModel`: the stored name, or "base" when unset. */
    function GetSelectedModel(): (name: string)
      reads this
      ensures stored.None? ==> name == DefaultModel
      ensures stored.Some? ==> name == stored.value
    {
      stored.GetOr(DefaultModel)
    }

    /** `setSelectedModel`: later reads give the name written. */
    method SetSelectedModel(modelName: string)
      modifies this
      ensures stored == Some(modelName)
      ensures GetSelectedModel() == modelName
    {
      stored := Some(modelName);
    }
  }
}
