/** Photo mode's resolution pickers: choosing an option writes the texture
    sizes of the photo configuration. `PhotoModeConfig` is not part of this
    model beyond its two sizes, whose initial values are given to the
    constructor; the shutter animation is left out. */
module PhotoMode {
  /** `PhotoModeTextureOptions` and `PhotoModeShadowOptions`. */
  const Normal: int := 0
  const High: int := 1
  const Highest: int := 2

  datatype PhotoModeConfig = PhotoModeConfig(finalTextureSize: int, shadowTextureSize: int)

  /** The final texture size the `finalTextureSizeOption` observer writes. */
  function FinalTextureSize(option: int): int {
    if option == Normal then 1024
    else if option == High then 2048
    else if option == Highest then 4096
    else 2048
  }

  /** The shadow texture size the `shadowResolution` observer writes, which
      it derives from the final texture option. */
  function ShadowTextureSize(finalTextureSizeOption: int): int {
    if finalTextureSizeOption == Normal then 2048
    else if finalTextureSizeOption == High then 4096
    else if finalTextureSizeOption == Highest then 8192
    else 4096
  }

  /** For every option the shadow map is twice the final texture, an
      unknown option is treated as high, and the sizes grow with the
      option. */
  lemma {:induction false} ShadowIsTwiceFinal(option: int)
    ensures ShadowTextureSize(option) == 2 * FinalTextureSize(option)
    ensures !(Normal <= option <= Highest) ==> FinalTextureSize(option) == FinalTextureSize(High)
    ensures FinalTextureSize(Normal) < FinalTextureSize(High) < FinalTextureSize(Highest)
  {
  }

  class PhotoModeViewModel {
    var photoConfig: PhotoModeConfig
    var finalTextureSizeOption: int
    var shadowResolution: int

    /** Both pickers start at high. The observers do not run for the initial
        values, so the configuration keeps its own sizes. */
    constructor (photoConfig: PhotoModeConfig)
      ensures finalTextureSizeOption == High && shadowResolution == High
      ensures this.photoConfig == photoConfig
    {
      this.photoConfig := photoConfig;
      finalTextureSizeOption, shadowResolution := High, High;
    }

    /** Setting `finalTextureSizeOption`: the final size follows the new
        option; the shadow size is left as it was. */
    method SetFinalTextureSizeOption(option: int)
      modifies this`finalTextureSizeOption, this`photoConfig
      ensures finalTextureSizeOption == option
      ensures photoConfig == old(photoConfig).(finalTextureSize := FinalTextureSize(option))
    {
      finalTextureSizeOption := option;
      var size := if option == Normal then 1024
        else if option == High then 2048
        else if option == Highest then 4096
        else 2048;
      photoConfig := photoConfig.(finalTextureSize := size);
    }

    /** Setting `shadowResolution`: the shadow size follows the final texture
        option, whatever the new value. */
    method SetShadowResolution(value: int)
      modifies this`shadowResolution, this`photoConfig
      ensures shadowResolution == value
      ensures photoConfig == old(photoConfig).(shadowTextureSize := ShadowTextureSize(finalTextureSizeOption))
    {
      shadowResolution := value;
      var size := if finalTextureSizeOption == Normal then 2048
        else if finalTextureSizeOption == High then 4096
        else if finalTextureSizeOption == Highest then 8192
        else 4096;
      photoConfig := photoConfig.(shadowTextureSize := size);
    }
  }

  /** Picking a final texture option and then any shadow option leaves the
      shadow map twice the size of the final texture. */
  method PickBoth(model: PhotoModeViewModel, option: int, shadowOption: int)
    modifies model
    ensures model.photoConfig.finalTextureSize == FinalTextureSize(option)
    ensures model.photoConfig.shadowTextureSize == 2 * model.photoConfig.finalTextureSize
  {
    model.SetFinalTextureSizeOption(option);
    model.SetShadowResolution(shadowOption);
    ShadowIsTwiceFinal(option);
  }
}
