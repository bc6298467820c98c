/** `MetalScene`: the per-frame bookkeeping of the renderer's scene. The
    matrices of `FrameData` are not modelled except for the model-view
    translation, which is the camera position; the camera keeps only its
    near and far planes. Every `didSet { needsRedraw = true }` observer is
    part of the setter that triggers it. */
module MetalScenes {
  import opened Wrappers
  import opened Geometry

  /** A Float quotient `2 / span`: IEEE division by zero gives infinity. */
  datatype DepthBias = Finite(value: real) | Infinite

  /** `depth_bias = 2 / (far - near)` in single precision. */
  function BiasOf(span: real): (b: DepthBias)
    ensures b.Infinite? <==> span == 0.0
    ensures b.Finite? ==> b.value * span == 2.0
  {
    if span == 0.0 then Infinite else Finite(2.0 / span)
  }

  /** The part of `FrameData` the scene writes. */
  datatype FrameData = FrameData(
    hasShadows: int,
    shadowStrength: real,
    hasDepthCueing: int,
    depthCueingStrength: real,
    depthBias: DepthBias,
    viewTranslation: Vec3)

  /** `FrameData()`: every field zero. */
  const BlankFrameData: FrameData := FrameData(0, 0.0, 0, 0.0, Finite(0.0), Zero)

  /** `self.hasShadows ? 1 : 0`. */
  function Flag(b: bool): (i: int)
    ensures i == 1 <==> b
    ensures i == 0 <==> !b
  {
    if b then 1 else 0
  }

  /** The camera planes fitted around a bounding sphere of radius `radius`
      seen from `distance`: the near plane never comes closer than 1. */
  function NearPlane(distance: real, radius: real): (near: real)
    ensures near >= 1.0 && near >= distance - radius
    ensures near == 1.0 || near == distance - radius
  {
    if distance - radius > 1.0 then distance - radius else 1.0
  }

  function FarPlane(distance: real, radius: real): real {
    distance + radius
  }

  /** When the sphere lies wholly beyond distance 1, the planes enclose it
      exactly: the span is its diameter and the bias is `1 / radius`. */
  lemma {:induction false} PlanesFitSphere(distance: real, radius: real)
    requires radius > 0.0 && distance - radius >= 1.0
    ensures FarPlane(distance, radius) - NearPlane(distance, radius) == 2.0 * radius
    ensures BiasOf(FarPlane(distance, radius) - NearPlane(distance, radius)) == Finite(1.0 / radius)
  {
    var span := FarPlane(distance, radius) - NearPlane(distance, radius);
    assert span == 2.0 * radius;
    assert 2.0 / span == 1.0 / radius;
  }

  /** When the sphere reaches nearer than distance 1, the near plane is
      clamped to 1 and the span is `distance + radius - 1`. */
  lemma {:induction false} PlanesClamped(distance: real, radius: real)
    requires distance - radius < 1.0
    ensures NearPlane(distance, radius) == 1.0
    ensures FarPlane(distance, radius) - NearPlane(distance, radius) == distance + radius - 1.0
  {
  }

  /** `ReprojectionData`: the transform from this frame's normalised device
      coordinates to the previous frame's, built from the two frame data. */
  datatype ReprojectionData = ReprojectionData(current: FrameData, previous: FrameData)

  /** `reprojectionData(currentFrameData:oldFrameData:)`: nothing, rather than
      an identity transform, when there is no previous frame. */
  function Reprojection(current: FrameData, oldFrameData: Option<FrameData>): (r: Option<ReprojectionData>)
    ensures r.None? <==> oldFrameData.None?
    ensures r.Some? ==> r.value.current == current && r.value.previous == oldFrameData.value
  {
    match oldFrameData
    case None => None
    case Some(previous) => Some(ReprojectionData(current, previous))
  }

  class MetalScene {
    var needsRedraw: bool
    var isPlaying: bool
    var autorotating: bool
    var hasShadows: bool
    var shadowStrength: real
    var hasDepthCueing: bool
    var depthCueingStrength: real
    var frame: int
    var frameData: FrameData
    var currentFrameData: FrameData
    var lastFrameFrameData: Option<FrameData>
    var cameraPosition: Vec3
    var nearPlane: real
    var farPlane: real
    var boundingSphereRadius: real

    /** `init()`: camera at (0, 0, 1000) with planes 1 and 10000, shadows
        when the device supports sampler comparison, no depth cueing,
        strengths 0.4 and 0.3, frame 0 and no previous frame data. The
        rotation update at the end of `init` goes through the observed
        rotation setter, so the scene starts out needing a redraw. */
    constructor (hasSamplerCompareSupport: bool)
      ensures !isPlaying && !autorotating && needsRedraw
      ensures hasShadows == hasSamplerCompareSupport && !hasDepthCueing
      ensures shadowStrength == 0.4 && depthCueingStrength == 0.3
      ensures frame == 0 && lastFrameFrameData.None?
      ensures cameraPosition == Vec3(0.0, 0.0, 1000.0) && nearPlane == 1.0 && farPlane == 10000.0
      ensures frameData == FrameData(Flag(hasSamplerCompareSupport), 0.4, 0, 0.3, Finite(0.0), Vec3(0.0, 0.0, 1000.0))
      ensures currentFrameData == frameData.(hasShadows := 0, hasDepthCueing := 0)
    {
      var position := Vec3(0.0, 0.0, 1000.0);
      var data := BlankFrameData.(viewTranslation := position);
      data := data.(shadowStrength := 0.4, depthCueingStrength := 0.3);
      nearPlane, farPlane := 1.0, 10000.0;
      cameraPosition := position;
      frame := 0;
      hasShadows, hasDepthCueing := hasSamplerCompareSupport, false;
      shadowStrength, depthCueingStrength := 0.4, 0.3;
      currentFrameData := data;
      isPlaying, autorotating := false, false;
      lastFrameFrameData := None;
      boundingSphereRadius := 0.0;
      needsRedraw := true;
      frameData := data.(hasShadows := Flag(hasSamplerCompareSupport), hasDepthCueing := Flag(false));
    }

    /** `updateScene()`: a frame with nothing to redraw and nothing playing
        only advances the frame counter. Otherwise the previous frame data is
        kept for reprojection, the shading flags and strengths and the camera
        translation are copied into the frame data, the frame counter
        advances, and the scene needs a redraw again only while
        autorotating; the new frame data becomes the current one. */
    method UpdateScene()
      modifies this
      ensures !(old(needsRedraw) || old(isPlaying)) ==>
        && frame == old(frame) + 1
        && needsRedraw == old(needsRedraw)
        && frameData == old(frameData) && currentFrameData == old(currentFrameData)
        && lastFrameFrameData == old(lastFrameFrameData)
      ensures old(needsRedraw) || old(isPlaying) ==>
        && lastFrameFrameData == Some(old(currentFrameData))
        && frameData == old(frameData).(
          hasShadows := Flag(hasShadows), shadowStrength := shadowStrength,
          hasDepthCueing := Flag(hasDepthCueing), depthCueingStrength := depthCueingStrength,
          viewTranslation := cameraPosition)
        && currentFrameData == frameData
        && frame == old(frame) + 1
        && needsRedraw == autorotating
      ensures isPlaying == old(isPlaying) && autorotating == old(autorotating)
      ensures hasShadows == old(hasShadows) && shadowStrength == old(shadowStrength)
      ensures hasDepthCueing == old(hasDepthCueing) && depthCueingStrength == old(depthCueingStrength)
      ensures cameraPosition == old(cameraPosition)
      ensures nearPlane == old(nearPlane) && farPlane == old(farPlane)
      ensures boundingSphereRadius == old(boundingSphereRadius)
    {
      if !(needsRedraw || isPlaying) {
        SkipFrame();
        return;
      }
      lastFrameFrameData := Some(currentFrameData);
      frameData := frameData.(viewTranslation := cameraPosition);
      frameData := frameData.(hasShadows := Flag(hasShadows), shadowStrength := shadowStrength);
      frameData := frameData.(hasDepthCueing := Flag(hasDepthCueing), depthCueingStrength := depthCueingStrength);
      frame := frame + 1;
      needsRedraw := false;
      if autorotating {
        needsRedraw := true;
      }
      currentFrameData := frameData;
    }

    /** `skipFrame()`. */
    method SkipFrame()
      modifies this`frame
      ensures frame == old(frame) + 1
    {
      frame := frame + 1;
    }

    /** `updateCameraDistanceToModel(distanceToModel:proteinDataSource:)`
        with the selection's bounding sphere radius given: planes fitted
        around the sphere, the camera moved to that distance, the depth bias
        recomputed from the new planes, and a redraw requested. */
    method UpdateCameraDistanceToModel(distanceToModel: real, sphereRadius: real)
      modifies this`boundingSphereRadius, this`nearPlane, this`farPlane, this`cameraPosition,
        this`frameData, this`needsRedraw
      ensures boundingSphereRadius == sphereRadius
      ensures nearPlane == NearPlane(distanceToModel, sphereRadius)
      ensures farPlane == FarPlane(distanceToModel, sphereRadius)
      ensures cameraPosition == old(cameraPosition).(z := distanceToModel)
      ensures frameData == old(frameData).(depthBias := BiasOf(farPlane - nearPlane))
      ensures needsRedraw
    {
      boundingSphereRadius := sphereRadius;
      nearPlane := if 1.0 < distanceToModel - boundingSphereRadius then distanceToModel - boundingSphereRadius else 1.0;
      farPlane := distanceToModel + boundingSphereRadius;
      cameraPosition := cameraPosition.(z := distanceToModel);
      needsRedraw := true;
      var armstrongsInBoundingSphere := farPlane - nearPlane;
      frameData := frameData.(depthBias := BiasOf(armstrongsInBoundingSphere));
    }

    /** `translateCamera(x:y:)`: moves the camera in its plane only. */
    method TranslateCamera(x: real, y: real)
      modifies this`cameraPosition, this`needsRedraw
      ensures cameraPosition == Add(old(cameraPosition), Vec3(x, y, 0.0))
      ensures needsRedraw
    {
      cameraPosition := cameraPosition.(x := cameraPosition.x + x);
      cameraPosition := cameraPosition.(y := cameraPosition.y + y);
      needsRedraw := true;
    }

    /** `resetCamera()`: undoes the translation in the camera plane but keeps
        the distance. */
    method ResetCamera()
      modifies this`cameraPosition, this`needsRedraw
      ensures cameraPosition == Vec3(0.0, 0.0, old(cameraPosition).z)
      ensures needsRedraw
    {
      cameraPosition := cameraPosition.(x := 0.0);
      cameraPosition := cameraPosition.(y := 0.0);
      needsRedraw := true;
    }

    /** The observed shading setters. */
    method SetHasShadows(value: bool)
      modifies this`hasShadows, this`needsRedraw
      ensures hasShadows == value && needsRedraw
    {
      hasShadows := value;
      needsRedraw := true;
    }

    method SetShadowStrength(value: real)
      modifies this`shadowStrength, this`needsRedraw
      ensures shadowStrength == value && needsRedraw
    {
      shadowStrength := value;
      needsRedraw := true;
    }

    method SetHasDepthCueing(value: bool)
      modifies this`hasDepthCueing, this`needsRedraw
      ensures hasDepthCueing == value && needsRedraw
    {
      hasDepthCueing := value;
      needsRedraw := true;
    }

    method SetDepthCueingStrength(value: real)
      modifies this`depthCueingStrength, this`needsRedraw
      ensures depthCueingStrength == value && needsRedraw
    {
      depthCueingStrength := value;
      needsRedraw := true;
    }

    method SetAutorotating(value: bool)
      modifies this`autorotating, this`needsRedraw
      ensures autorotating == value && needsRedraw
    {
      autorotating := value;
      needsRedraw := true;
    }
  }

  /** A shading change is drawn on the next frame: after a setter and one
      update, the current frame data carries the new flag, and the frame
      before it is kept for reprojection. */
  method ShadowChangeReachesNextFrame(scene: MetalScene, value: bool)
    modifies scene
    ensures scene.currentFrameData.hasShadows == Flag(value)
    ensures Reprojection(scene.currentFrameData, scene.lastFrameFrameData).Some?
  {
    scene.SetHasShadows(value);
    scene.UpdateScene();
  }
}
