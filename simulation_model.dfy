/**
 * The settings of the simulation set-up window and the microscope it builds.
 * The window's fields form one record (a getter is the record's field); the
 * model object holds it and updates one field per setter. build() turns
 * the record into the set of builders the microscope is made from.
 */
module SimulationModel {
  import opened Wrappers

  /** Every field of the window's model; a String field is None while null. */
  datatype Settings = Settings(
    cameraNX: int,
    cameraNY: int,
    cameraReadoutNoise: real,
    cameraDarkCurrent: real,
    cameraQuantumEfficiency: real,
    cameraAduPerElectron: real,
    cameraEmGain: int,
    cameraBaseline: int,
    cameraPixelSize: real,
    cameraThermalNoise: real,
    objectiveNa: real,
    objectiveMag: real,
    fluorophoreSignal: real,
    fluorophoreWavelength: real,
    fluorophoreTOn: real,
    fluorophoreTOff: real,
    fluorophoreTBl: real,
    laserMinPower: real,
    laserMaxPower: real,
    laserCurrentPower: real,
    stageX: real,
    stageY: real,
    stageZ: real,
    emittersCurrentSelection: Option<string>,
    emittersRandomNumber: int,
    emittersGridSpacing: int,
    emittersCsvFile: Option<string>,
    emittersRandomButtonText: Option<string>,
    emittersGridButtonText: Option<string>,
    emittersCsvFileButtonText: Option<string>,
    emitters3DCheckBoxEnabled: bool,
    emitters3DMinZ: real,
    emitters3DMaxZ: real,
    fiducialsNumber: int,
    fiducialsSignal: real,
    backgroundCurrentSelection: Option<string>,
    backgroundUniformSignal: real,
    backgroundRandomFeatureSize: real,
    backgroundRandomMinValue: real,
    backgroundRandomMaxValue: real,
    backgroundRandomSeed: int,
    backgroundTifFile: Option<string>,
    backgroundRandomButtonText: Option<string>,
    backgroundUniformButtonText: Option<string>,
    backgroundTifFileButtonText: Option<string>,
    psfCurrentSelection: Option<string>,
    psfGaussian2dText: Option<string>,
    psfGaussian3dText: Option<string>,
    psfGibsonLanniNumBasis: int,
    psfGibsonLanniNumSamples: int,
    psfGibsonLanniOversampling: int,
    psfGibsonLanniSizeX: int,
    psfGibsonLanniSizeY: int,
    psfGibsonLanniNs: real,
    psfGibsonLanniNg0: real,
    psfGibsonLanniNg: real,
    psfGibsonLanniNi0: real,
    psfGibsonLanniNi: real,
    psfGibsonLanniTi0: real,
    psfGibsonLanniTg0: real,
    psfGibsonLanniTg: real,
    psfGibsonLanniResPsf: real,
    psfGibsonLanniResPsfAxial: real,
    psfGibsonLanniSolver: Option<string>,
    psfGibsonLanniMaxRadius: int,
    psfGibsonLanniText: Option<string>
  )

  /** A new model: Java's zero, false and null defaults for every field. */
  const Defaults := Settings(0, 0, 0.0, 0.0, 0.0, 0.0, 0, 0, 0.0, 0.0, 0.0, 0.0, 0.0, 0.0, 0.0, 0.0, 0.0, 0.0, 0.0, 0.0, 0.0, 0.0, 0.0, None, 0, 0, None, None, None, None, false, 0.0, 0.0, 0, 0.0, None, 0.0, 0.0, 0.0, 0.0, 0, None, None, None, None, None, None, None, 0, 0, 0, 0, 0, 0.0, 0.0, 0.0, 0.0, 0.0, 0.0, 0.0, 0.0, 0.0, 0.0, None, 0, None)

  /** The window's model: one setter per field, each changing that field alone. */
  class Model {
    var settings: Settings

    constructor ()
      ensures settings == Defaults
    {
      settings := Defaults;
    }

    method SetCameraNX(nX: int)
      modifies this
      ensures settings == old(settings).(cameraNX := nX)
    {
      settings := settings.(cameraNX := nX);
    }

    method SetCameraNY(nY: int)
      modifies this
      ensures settings == old(settings).(cameraNY := nY)
    {
      settings := settings.(cameraNY := nY);
    }

    method SetCameraReadoutNoise(readoutNoise: real)
      modifies this
      ensures settings == old(settings).(cameraReadoutNoise := readoutNoise)
    {
      settings := settings.(cameraReadoutNoise := readoutNoise);
    }

    method SetCameraDarkCurrent(darkCurrent: real)
      modifies this
      ensures settings == old(settings).(cameraDarkCurrent := darkCurrent)
    {
      settings := settings.(cameraDarkCurrent := darkCurrent);
    }

    method SetCameraQuantumEfficiency(quantumEfficiency: real)
      modifies this
      ensures settings == old(settings).(cameraQuantumEfficiency := quantumEfficiency)
    {
      settings := settings.(cameraQuantumEfficiency := quantumEfficiency);
    }

    method SetCameraAduPerElectron(aduPerElectron: real)
      modifies this
      ensures settings == old(settings).(cameraAduPerElectron := aduPerElectron)
    {
      settings := settings.(cameraAduPerElectron := aduPerElectron);
    }

    method SetCameraEmGain(emGain: int)
      modifies this
      ensures settings == old(settings).(cameraEmGain := emGain)
    {
      settings := settings.(cameraEmGain := emGain);
    }

    method SetCameraBaseline(baseline: int)
      modifies this
      ensures settings == old(settings).(cameraBaseline := baseline)
    {
      settings := settings.(cameraBaseline := baseline);
    }

    method SetCameraPixelSize(pixelSize: real)
      modifies this
      ensures settings == old(settings).(cameraPixelSize := pixelSize)
    {
      settings := settings.(cameraPixelSize := pixelSize);
    }

    method SetCameraThermalNoise(thermalNoise: real)
      modifies this
      ensures settings == old(settings).(cameraThermalNoise := thermalNoise)
    {
      settings := settings.(cameraThermalNoise := thermalNoise);
    }

    method SetObjectiveNa(na: real)
      modifies this
      ensures settings == old(settings).(objectiveNa := na)
    {
      settings := settings.(objectiveNa := na);
    }

    method SetObjectiveMag(mag: real)
      modifies this
      ensures settings == old(settings).(objectiveMag := mag)
    {
      settings := settings.(objectiveMag := mag);
    }

    method SetFluorophoreSignal(signal: real)
      modifies this
      ensures settings == old(settings).(fluorophoreSignal := signal)
    {
      settings := settings.(fluorophoreSignal := signal);
    }

    method SetFluorophoreWavelength(wavelength: real)
      modifies this
      ensures settings == old(settings).(fluorophoreWavelength := wavelength)
    {
      settings := settings.(fluorophoreWavelength := wavelength);
    }

    method SetFluorophoreTOn(tOn: real)
      modifies this
      ensures settings == old(settings).(fluorophoreTOn := tOn)
    {
      settings := settings.(fluorophoreTOn := tOn);
    }

    method SetFluorophoreTOff(tOff: real)
      modifies this
      ensures settings == old(settings).(fluorophoreTOff := tOff)
    {
      settings := settings.(fluorophoreTOff := tOff);
    }

    method SetFluorophoreTBl(tBl: real)
      modifies this
      ensures settings == old(settings).(fluorophoreTBl := tBl)
    {
      settings := settings.(fluorophoreTBl := tBl);
    }

    method SetLaserMinPower(minPower: real)
      modifies this
      ensures settings == old(settings).(laserMinPower := minPower)
    {
      settings := settings.(laserMinPower := minPower);
    }

    method SetLaserMaxPower(maxPower: real)
      modifies this
      ensures settings == old(settings).(laserMaxPower := maxPower)
    {
      settings := settings.(laserMaxPower := maxPower);
    }

    method SetLaserCurrentPower(currentPower: real)
      modifies this
      ensures settings == old(settings).(laserCurrentPower := currentPower)
    {
      settings := settings.(laserCurrentPower := currentPower);
    }

    method SetStageX(x: real)
      modifies this
      ensures settings == old(settings).(stageX := x)
    {
      settings := settings.(stageX := x);
    }

    method SetStageY(y: real)
      modifies this
      ensures settings == old(settings).(stageY := y)
    {
      settings := settings.(stageY := y);
    }

    method SetStageZ(z: real)
      modifies this
      ensures settings == old(settings).(stageZ := z)
    {
      settings := settings.(stageZ := z);
    }

    method SetEmittersCurrentSelection(currentSelection: Option<string>)
      modifies this
      ensures settings == old(settings).(emittersCurrentSelection := currentSelection)
    {
      settings := settings.(emittersCurrentSelection := currentSelection);
    }

    method SetEmittersRandomNumber(number: int)
      modifies this
      ensures settings == old(settings).(emittersRandomNumber := number)
    {
      settings := settings.(emittersRandomNumber := number);
    }

    method SetEmittersGridSpacing(spacing: int)
      modifies this
      ensures settings == old(settings).(emittersGridSpacing := spacing)
    {
      settings := settings.(emittersGridSpacing := spacing);
    }

    method SetEmittersCsvFile(filename: Option<string>)
      modifies this
      ensures settings == old(settings).(emittersCsvFile := filename)
    {
      settings := settings.(emittersCsvFile := filename);
    }

    method SetEmittersRandomButtonText(text: Option<string>)
      modifies this
      ensures settings == old(settings).(emittersRandomButtonText := text)
    {
      settings := settings.(emittersRandomButtonText := text);
    }

    method SetEmittersGridButtonText(text: Option<string>)
      modifies this
      ensures settings == old(settings).(emittersGridButtonText := text)
    {
      settings := settings.(emittersGridButtonText := text);
    }

    method SetEmittersCsvFileButtonText(text: Option<string>)
      modifies this
      ensures settings == old(settings).(emittersCsvFileButtonText := text)
    {
      settings := settings.(emittersCsvFileButtonText := text);
    }

    method SetEmitters3DCheckBoxEnabled(enabled: bool)
      modifies this
      ensures settings == old(settings).(emitters3DCheckBoxEnabled := enabled)
    {
      settings := settings.(emitters3DCheckBoxEnabled := enabled);
    }

    method SetEmitters3DMinZ(min: real)
      modifies this
      ensures settings == old(settings).(emitters3DMinZ := min)
    {
      settings := settings.(emitters3DMinZ := min);
    }

    method SetEmitters3DMaxZ(max: real)
      modifies this
      ensures settings == old(settings).(emitters3DMaxZ := max)
    {
      settings := settings.(emitters3DMaxZ := max);
    }

    method SetFiducialsNumber(number: int)
      modifies this
      ensures settings == old(settings).(fiducialsNumber := number)
    {
      settings := settings.(fiducialsNumber := number);
    }

    method SetFiducialsSignal(signal: real)
      modifies this
      ensures settings == old(settings).(fiducialsSignal := signal)
    {
      settings := settings.(fiducialsSignal := signal);
    }

    method SetBackgroundCurrentSelection(currentSelection: Option<string>)
      modifies this
      ensures settings == old(settings).(backgroundCurrentSelection := currentSelection)
    {
      settings := settings.(backgroundCurrentSelection := currentSelection);
    }

    method SetBackgroundUniformSignal(signal: real)
      modifies this
      ensures settings == old(settings).(backgroundUniformSignal := signal)
    {
      settings := settings.(backgroundUniformSignal := signal);
    }

    method SetBackgroundRandomFeatureSize(featureSize: real)
      modifies this
      ensures settings == old(settings).(backgroundRandomFeatureSize := featureSize)
    {
      settings := settings.(backgroundRandomFeatureSize := featureSize);
    }

    method SetBackgroundRandomMinValue(minValue: real)
      modifies this
      ensures settings == old(settings).(backgroundRandomMinValue := minValue)
    {
      settings := settings.(backgroundRandomMinValue := minValue);
    }

    method SetBackgroundRandomMaxValue(maxValue: real)
      modifies this
      ensures settings == old(settings).(backgroundRandomMaxValue := maxValue)
    {
      settings := settings.(backgroundRandomMaxValue := maxValue);
    }

    method SetBackgroundRandomSeed(seed: int)
      modifies this
      ensures settings == old(settings).(backgroundRandomSeed := seed)
    {
      settings := settings.(backgroundRandomSeed := seed);
    }

    method SetBackgroundTifFile(filename: Option<string>)
      modifies this
      ensures settings == old(settings).(backgroundTifFile := filename)
    {
      settings := settings.(backgroundTifFile := filename);
    }

    method SetBackgroundRandomButtonText(text: Option<string>)
      modifies this
      ensures settings == old(settings).(backgroundRandomButtonText := text)
    {
      settings := settings.(backgroundRandomButtonText := text);
    }

    method SetBackgroundUniformButtonText(text: Option<string>)
      modifies this
      ensures settings == old(settings).(backgroundUniformButtonText := text)
    {
      settings := settings.(backgroundUniformButtonText := text);
    }

    method SetBackgroundTifFileButtonText(text: Option<string>)
      modifies this
      ensures settings == old(settings).(backgroundTifFileButtonText := text)
    {
      settings := settings.(backgroundTifFileButtonText := text);
    }

    method SetPsfCurrentSelection(text: Option<string>)
      modifies this
      ensures settings == old(settings).(psfCurrentSelection := text)
    {
      settings := settings.(psfCurrentSelection := text);
    }

    method SetPsfGaussian2dText(text: Option<string>)
      modifies this
      ensures settings == old(settings).(psfGaussian2dText := text)
    {
      settings := settings.(psfGaussian2dText := text);
    }

    method SetPsfGaussian3dText(text: Option<string>)
      modifies this
      ensures settings == old(settings).(psfGaussian3dText := text)
    {
      settings := settings.(psfGaussian3dText := text);
    }

    method SetPsfGibsonLanniNumBasis(numBasis: int)
      modifies this
      ensures settings == old(settings).(psfGibsonLanniNumBasis := numBasis)
    {
      settings := settings.(psfGibsonLanniNumBasis := numBasis);
    }

    method SetPsfGibsonLanniNumSamples(numSamples: int)
      modifies this
      ensures settings == old(settings).(psfGibsonLanniNumSamples := numSamples)
    {
      settings := settings.(psfGibsonLanniNumSamples := numSamples);
    }

    method SetPsfGibsonLanniOversampling(oversampling: int)
      modifies this
      ensures settings == old(settings).(psfGibsonLanniOversampling := oversampling)
    {
      settings := settings.(psfGibsonLanniOversampling := oversampling);
    }

    method SetPsfGibsonLanniSizeX(sizeX: int)
      modifies this
      ensures settings == old(settings).(psfGibsonLanniSizeX := sizeX)
    {
      settings := settings.(psfGibsonLanniSizeX := sizeX);
    }

    method SetPsfGibsonLanniSizeY(sizeY: int)
      modifies this
      ensures settings == old(settings).(psfGibsonLanniSizeY := sizeY)
    {
      settings := settings.(psfGibsonLanniSizeY := sizeY);
    }

    method SetPsfGibsonLanniNs(ns: real)
      modifies this
      ensures settings == old(settings).(psfGibsonLanniNs := ns)
    {
      settings := settings.(psfGibsonLanniNs := ns);
    }

    method SetPsfGibsonLanniNg0(ng0: real)
      modifies this
      ensures settings == old(settings).(psfGibsonLanniNg0 := ng0)
    {
      settings := settings.(psfGibsonLanniNg0 := ng0);
    }

    method SetPsfGibsonLanniNg(ng: real)
      modifies this
      ensures settings == old(settings).(psfGibsonLanniNg := ng)
    {
      settings := settings.(psfGibsonLanniNg := ng);
    }

    method SetPsfGibsonLanniNi0(ni0: real)
      modifies this
      ensures settings == old(settings).(psfGibsonLanniNi0 := ni0)
    {
      settings := settings.(psfGibsonLanniNi0 := ni0);
    }

    method SetPsfGibsonLanniNi(ni: real)
      modifies this
      ensures settings == old(settings).(psfGibsonLanniNi := ni)
    {
      settings := settings.(psfGibsonLanniNi := ni);
    }

    method SetPsfGibsonLanniTi0(ti0: real)
      modifies this
      ensures settings == old(settings).(psfGibsonLanniTi0 := ti0)
    {
      settings := settings.(psfGibsonLanniTi0 := ti0);
    }

    method SetPsfGibsonLanniTg0(tg0: real)
      modifies this
      ensures settings == old(settings).(psfGibsonLanniTg0 := tg0)
    {
      settings := settings.(psfGibsonLanniTg0 := tg0);
    }

    method SetPsfGibsonLanniTg(tg: real)
      modifies this
      ensures settings == old(settings).(psfGibsonLanniTg := tg)
    {
      settings := settings.(psfGibsonLanniTg := tg);
    }

    method SetPsfGibsonLanniResPsf(resPsf: real)
      modifies this
      ensures settings == old(settings).(psfGibsonLanniResPsf := resPsf)
    {
      settings := settings.(psfGibsonLanniResPsf := resPsf);
    }

    method SetPsfGibsonLanniResPsfAxial(resPsfAxial: real)
      modifies this
      ensures settings == old(settings).(psfGibsonLanniResPsfAxial := resPsfAxial)
    {
      settings := settings.(psfGibsonLanniResPsfAxial := resPsfAxial);
    }

    method SetPsfGibsonLanniSolver(solver: Option<string>)
      modifies this
      ensures settings == old(settings).(psfGibsonLanniSolver := solver)
    {
      settings := settings.(psfGibsonLanniSolver := solver);
    }

    method SetPsfGibsonLanniMaxRadius(maxRadius: int)
      modifies this
      ensures settings == old(settings).(psfGibsonLanniMaxRadius := maxRadius)
    {
      settings := settings.(psfGibsonLanniMaxRadius := maxRadius);
    }

    method SetPsfGibsonLanniText(text: Option<string>)
      modifies this
      ensures settings == old(settings).(psfGibsonLanniText := text)
    {
      settings := settings.(psfGibsonLanniText := text);
    }
  }

  // ---------------------------------------------------------------- the builders build() fills in

  datatype CameraConfig = CameraConfig(
    nX: int, nY: int, readoutNoise: real, darkCurrent: real, quantumEfficiency: real,
    aduPerElectron: real, emGain: int, baseline: int, pixelSize: real)

  datatype ObjectiveConfig = ObjectiveConfig(na: real, mag: real)

  datatype StageConfig = StageConfig(x: real, y: real, z: real)

  /** The fluorophore photophysics: signal, wavelength and the on, off and bleaching times. */
  datatype DynamicsConfig = DynamicsConfig(signal: real, wavelength: real, tOn: real, tOff: real, tBl: real)

  datatype FiducialsConfig = FiducialsConfig(numFiducials: int, brightness: real)

  datatype LaserConfig = LaserConfig(currentPower: real, minPower: real, maxPower: real)

  /** The emitter-position command, one per layout generator. */
  datatype EmitterCommand =
    | Random2D(numFluors: int)
    | Grid2D(spacing: int)
    | Random3D(numFluors: int, zLow: real, zHigh: real)
    | Grid3D(spacing: int, zLow: real, zHigh: real)
    | FromCsv(file: string, rescale: bool)

  datatype BackgroundCommand =
    | Uniform(signal: real)
    | FromTif(file: string)
    | RandomBackground(featureSize: real, min: real, max: real, seed: int)

  datatype GibsonLanniParams = GibsonLanniParams(
    numBasis: int, numSamples: int, oversampling: int, sizeX: int, sizeY: int,
    ns: real, ng0: real, ng: real, ni0: real, ni: real, ti0: real, tg0: real, tg: real,
    resPsf: real, resPsfAxial: real, solver: Option<string>, maxRadius: int)

  datatype PsfBuilder = Gaussian2D | Gaussian3D | GibsonLanni(params: GibsonLanniParams)

  /** The builders handed to the microscope; a builder no branch selected stays unset (null). */
  datatype Microscope = Microscope(
    camera: CameraConfig,
    laser: LaserConfig,
    objective: ObjectiveConfig,
    psf: Option<PsfBuilder>,
    stage: StageConfig,
    emitters: Option<EmitterCommand>,
    dynamics: DynamicsConfig,
    fiducials: FiducialsConfig,
    background: Option<BackgroundCommand>)

  /** build() dereferences a null String field: the name of the first one. */
  datatype BuildError = NullDereference(field: string)

  // ---------------------------------------------------------------- build()

  /** `label.equals(text)` on a non-null receiver: false for a null argument. */
  predicate Matches(selection: string, text: Option<string>) {
    text == Some(selection)
  }

  /**
   * The emitter branch: the first of the five conditions that holds. The fourth
   * repeats the second one word for word, so it never selects the 3D grid.
   */
  function EmitterBranch(s: Settings, selection: string): Result<Option<EmitterCommand>, BuildError>
  {
    if Matches(selection, s.emittersRandomButtonText) && !s.emitters3DCheckBoxEnabled then
      Success(Some(Random2D(s.emittersRandomNumber)))
    else if Matches(selection, s.emittersGridButtonText) && !s.emitters3DCheckBoxEnabled then
      Success(Some(Grid2D(s.emittersGridSpacing)))
    else if Matches(selection, s.emittersRandomButtonText) && s.emitters3DCheckBoxEnabled then
      Success(Some(Random3D(s.emittersRandomNumber, s.emitters3DMinZ, s.emitters3DMaxZ)))
    else if Matches(selection, s.emittersGridButtonText) && !s.emitters3DCheckBoxEnabled then
      Success(Some(Grid3D(s.emittersGridSpacing, s.emitters3DMinZ, s.emitters3DMaxZ)))
    else if Matches(selection, s.emittersCsvFileButtonText) then
      if s.emittersCsvFile.None? then Failure(NullDereference("emittersCsvFile"))
      else Success(Some(FromCsv(s.emittersCsvFile.value, false)))
    else
      Success(None)
  }

  /**
   * The background branch. A null TIF file name throws inside the branch's
   * try block, whose handler only shows a message: the background stays unset.
   */
  function BackgroundBranch(s: Settings, selection: string): Option<BackgroundCommand>
  {
    if Matches(selection, s.backgroundUniformButtonText) then
      Some(Uniform(s.backgroundUniformSignal))
    else if Matches(selection, s.backgroundTifFileButtonText) then
      if s.backgroundTifFile.None? then None else Some(FromTif(s.backgroundTifFile.value))
    else if Matches(selection, s.backgroundRandomButtonText) then
      Some(RandomBackground(s.backgroundRandomFeatureSize, s.backgroundRandomMinValue,
                            s.backgroundRandomMaxValue, s.backgroundRandomSeed))
    else
      None
  }

  function GibsonLanniOf(s: Settings): GibsonLanniParams {
    GibsonLanniParams(
      s.psfGibsonLanniNumBasis, s.psfGibsonLanniNumSamples, s.psfGibsonLanniOversampling,
      s.psfGibsonLanniSizeX, s.psfGibsonLanniSizeY,
      s.psfGibsonLanniNs, s.psfGibsonLanniNg0, s.psfGibsonLanniNg, s.psfGibsonLanniNi0, s.psfGibsonLanniNi,
      s.psfGibsonLanniTi0, s.psfGibsonLanniTg0, s.psfGibsonLanniTg,
      s.psfGibsonLanniResPsf, s.psfGibsonLanniResPsfAxial, s.psfGibsonLanniSolver, s.psfGibsonLanniMaxRadius)
  }

  function PsfBranch(s: Settings, selection: string): Option<PsfBuilder>
  {
    if Matches(selection, s.psfGaussian2dText) then Some(Gaussian2D)
    else if Matches(selection, s.psfGaussian3dText) then Some(Gaussian3D)
    else if Matches(selection, s.psfGibsonLanniText) then Some(GibsonLanni(GibsonLanniOf(s)))
    else None
  }

  /**
   * build(): the fixed builders copy their fields; the emitter, background and
   * PSF selections are compared, in that order, with the labels. A null
   * selection, or a null CSV file name on the CSV branch, throws.
   */
  function Build(s: Settings): (r: Result<Microscope, BuildError>)
    ensures r.Success? ==> r.value.emitters.None? || !r.value.emitters.value.Grid3D?
    ensures r.Success? ==> r.value.stage.x == 0.0 && r.value.stage.y == 0.0
  {
    var emitterSelection :- if s.emittersCurrentSelection.None? then Failure(NullDereference("emittersCurrentSelection"))
                            else Success(s.emittersCurrentSelection.value);
    var emitters :- EmitterBranch(s, emitterSelection);
    var backgroundSelection :- if s.backgroundCurrentSelection.None? then Failure(NullDereference("backgroundCurrentSelection"))
                               else Success(s.backgroundCurrentSelection.value);
    var psfSelection :- if s.psfCurrentSelection.None? then Failure(NullDereference("psfCurrentSelection"))
                        else Success(s.psfCurrentSelection.value);
    Success(Microscope(
      CameraConfig(s.cameraNX, s.cameraNY, s.cameraReadoutNoise, s.cameraDarkCurrent, s.cameraQuantumEfficiency,
                   s.cameraAduPerElectron, s.cameraEmGain, s.cameraBaseline, s.cameraPixelSize),
      LaserConfig(s.laserCurrentPower, s.laserMinPower, s.laserMaxPower),
      ObjectiveConfig(s.objectiveNa, s.objectiveMag),
      PsfBranch(s, psfSelection),
      StageConfig(0.0, 0.0, s.stageZ),
      emitters,
      DynamicsConfig(s.fluorophoreSignal, s.fluorophoreWavelength, s.fluorophoreTOn, s.fluorophoreTOff, s.fluorophoreTBl),
      FiducialsConfig(s.fiducialsNumber, s.fiducialsSignal),
      BackgroundBranch(s, backgroundSelection)))
  }

  // ---------------------------------------------------------------- properties of build()

  /** A CSV selection whose file name is null; the only other way build() fails. */
  predicate CsvWithoutFile(s: Settings) {
    s.emittersCurrentSelection.Some? &&
    var sel := s.emittersCurrentSelection.value;
    Matches(sel, s.emittersCsvFileButtonText) && s.emittersCsvFile.None? &&
    !(Matches(sel, s.emittersRandomButtonText)) &&
    !(Matches(sel, s.emittersGridButtonText) && !s.emitters3DCheckBoxEnabled)
  }

  /** build() fails exactly when a selection is null or the chosen CSV file name is. */
  lemma BuildFailsIff(s: Settings)
    ensures Build(s).Failure? <==>
      s.emittersCurrentSelection.None? || CsvWithoutFile(s) ||
      s.backgroundCurrentSelection.None? || s.psfCurrentSelection.None?
  {
  }

  /** A new model cannot be built: its selections are null. */
  lemma DefaultsDoNotBuild()
    ensures Build(Defaults) == Failure(NullDereference("emittersCurrentSelection"))
  {
  }

  /** Stage x and y are always 0, whatever stageX and stageY hold; z is stageZ. */
  lemma StageIgnoresXY(s: Settings, x: real, y: real)
    ensures Build(s.(stageX := x, stageY := y)) == Build(s)
    ensures Build(s).Success? ==> Build(s).value.stage == StageConfig(0.0, 0.0, s.stageZ)
  {
  }

  /** The camera gets nine of the ten camera fields: the thermal noise is never passed on. */
  lemma CameraForwarding(s: Settings, thermalNoise: real)
    ensures Build(s.(cameraThermalNoise := thermalNoise)) == Build(s)
    ensures Build(s).Success? ==>
      var c := Build(s).value.camera;
      c.nX == s.cameraNX && c.nY == s.cameraNY && c.readoutNoise == s.cameraReadoutNoise &&
      c.darkCurrent == s.cameraDarkCurrent && c.quantumEfficiency == s.cameraQuantumEfficiency &&
      c.aduPerElectron == s.cameraAduPerElectron && c.emGain == s.cameraEmGain &&
      c.baseline == s.cameraBaseline && c.pixelSize == s.cameraPixelSize
  {
  }

  /** The laser, objective, photophysics and fiducials get their fields unchanged. */
  lemma ComponentForwarding(s: Settings)
    ensures Build(s).Success? ==>
      var m := Build(s).value;
      m.laser == LaserConfig(s.laserCurrentPower, s.laserMinPower, s.laserMaxPower) &&
      m.objective == ObjectiveConfig(s.objectiveNa, s.objectiveMag) &&
      m.dynamics == DynamicsConfig(s.fluorophoreSignal, s.fluorophoreWavelength, s.fluorophoreTOn, s.fluorophoreTOff, s.fluorophoreTBl) &&
      m.fiducials == FiducialsConfig(s.fiducialsNumber, s.fiducialsSignal)
  {
  }

  /** The emitter command for each label, the first matching condition winning. */
  lemma EmitterDispatch(s: Settings)
    requires Build(s).Success?
    ensures var sel, e := s.emittersCurrentSelection.value, Build(s).value.emitters;
      (Matches(sel, s.emittersRandomButtonText) && !s.emitters3DCheckBoxEnabled ==>
        e == Some(Random2D(s.emittersRandomNumber))) &&
      (Matches(sel, s.emittersRandomButtonText) && s.emitters3DCheckBoxEnabled ==>
        e == Some(Random3D(s.emittersRandomNumber, s.emitters3DMinZ, s.emitters3DMaxZ))) &&
      (!Matches(sel, s.emittersRandomButtonText) && Matches(sel, s.emittersGridButtonText) && !s.emitters3DCheckBoxEnabled ==>
        e == Some(Grid2D(s.emittersGridSpacing))) &&
      (Matches(sel, s.emittersCsvFileButtonText) && !Matches(sel, s.emittersRandomButtonText) &&
       !(Matches(sel, s.emittersGridButtonText) && !s.emitters3DCheckBoxEnabled) ==>
        e == Some(FromCsv(s.emittersCsvFile.value, false)))
  {
  }

  /**
   * An emitter command is chosen exactly when the selection is the random or
   * CSV label, or the grid label without 3D.
   */
  lemma EmittersSetIff(s: Settings)
    requires Build(s).Success?
    ensures var sel := s.emittersCurrentSelection.value;
      Build(s).value.emitters.Some? <==>
        Matches(sel, s.emittersRandomButtonText) || Matches(sel, s.emittersCsvFileButtonText) ||
        (Matches(sel, s.emittersGridButtonText) && !s.emitters3DCheckBoxEnabled)
  {
  }

  /** With distinct labels, the grid selected with 3D enabled leaves the emitter builder unset. */
  lemma GridWith3DLeavesEmittersUnset(s: Settings)
    requires s.emittersCurrentSelection.Some? && s.backgroundCurrentSelection.Some? && s.psfCurrentSelection.Some?
    requires Matches(s.emittersCurrentSelection.value, s.emittersGridButtonText) && s.emitters3DCheckBoxEnabled
    requires s.emittersRandomButtonText != s.emittersGridButtonText && s.emittersCsvFileButtonText != s.emittersGridButtonText
    ensures Build(s).Success? && Build(s).value.emitters == None
  {
  }

  /**
   * The emitter branch as its comment evidently means it: the fourth condition
   * asks for the 3D check box, so the grid label with 3D selects the 3D grid.
   */
  function IntendedEmitterBranch(s: Settings, selection: string): (r: Result<Option<EmitterCommand>, BuildError>)
    ensures Matches(selection, s.emittersGridButtonText) && s.emitters3DCheckBoxEnabled &&
            !Matches(selection, s.emittersRandomButtonText) ==>
              r == Success(Some(Grid3D(s.emittersGridSpacing, s.emitters3DMinZ, s.emitters3DMaxZ)))
  {
    if Matches(selection, s.emittersRandomButtonText) && !s.emitters3DCheckBoxEnabled then
      Success(Some(Random2D(s.emittersRandomNumber)))
    else if Matches(selection, s.emittersGridButtonText) && !s.emitters3DCheckBoxEnabled then
      Success(Some(Grid2D(s.emittersGridSpacing)))
    else if Matches(selection, s.emittersRandomButtonText) && s.emitters3DCheckBoxEnabled then
      Success(Some(Random3D(s.emittersRandomNumber, s.emitters3DMinZ, s.emitters3DMaxZ)))
    else if Matches(selection, s.emittersGridButtonText) && s.emitters3DCheckBoxEnabled then
      Success(Some(Grid3D(s.emittersGridSpacing, s.emitters3DMinZ, s.emitters3DMaxZ)))
    else if Matches(selection, s.emittersCsvFileButtonText) then
      if s.emittersCsvFile.None? then Failure(NullDereference("emittersCsvFile"))
      else Success(Some(FromCsv(s.emittersCsvFile.value, false)))
    else
      Success(None)
  }

  /** The corrected branch differs from the written one only for the grid label with 3D enabled. */
  lemma IntendedDiffersOnlyOnGrid3D(s: Settings, selection: string)
    ensures EmitterBranch(s, selection) != IntendedEmitterBranch(s, selection) <==>
      Matches(selection, s.emittersGridButtonText) && s.emitters3DCheckBoxEnabled &&
      !Matches(selection, s.emittersRandomButtonText)
  {
  }

  /** The background command for each label; a null TIF file name or an unknown label leaves it unset. */
  lemma BackgroundDispatch(s: Settings)
    requires Build(s).Success?
    ensures var sel, b := s.backgroundCurrentSelection.value, Build(s).value.background;
      (Matches(sel, s.backgroundUniformButtonText) ==> b == Some(Uniform(s.backgroundUniformSignal))) &&
      (!Matches(sel, s.backgroundUniformButtonText) && Matches(sel, s.backgroundTifFileButtonText) ==>
        b == (if s.backgroundTifFile.None? then None else Some(FromTif(s.backgroundTifFile.value)))) &&
      (!Matches(sel, s.backgroundUniformButtonText) && !Matches(sel, s.backgroundTifFileButtonText) &&
       Matches(sel, s.backgroundRandomButtonText) ==>
        b == Some(RandomBackground(s.backgroundRandomFeatureSize, s.backgroundRandomMinValue,
                                   s.backgroundRandomMaxValue, s.backgroundRandomSeed))) &&
      (b.None? <==>
        (Matches(sel, s.backgroundTifFileButtonText) && !Matches(sel, s.backgroundUniformButtonText) && s.backgroundTifFile.None?) ||
        (!Matches(sel, s.backgroundUniformButtonText) && !Matches(sel, s.backgroundTifFileButtonText) &&
         !Matches(sel, s.backgroundRandomButtonText)))
  {
  }

  /** The PSF for each label, the Gibson-Lanni one with all seventeen of its fields; an unknown label leaves it unset. */
  lemma PsfDispatch(s: Settings)
    requires Build(s).Success?
    ensures var sel, p := s.psfCurrentSelection.value, Build(s).value.psf;
      (Matches(sel, s.psfGaussian2dText) ==> p == Some(Gaussian2D)) &&
      (!Matches(sel, s.psfGaussian2dText) && Matches(sel, s.psfGaussian3dText) ==> p == Some(Gaussian3D)) &&
      (p.Some? && p.value.GibsonLanni? ==>
        var g := p.value.params;
        g.numBasis == s.psfGibsonLanniNumBasis && g.numSamples == s.psfGibsonLanniNumSamples &&
        g.oversampling == s.psfGibsonLanniOversampling && g.sizeX == s.psfGibsonLanniSizeX &&
        g.sizeY == s.psfGibsonLanniSizeY && g.ns == s.psfGibsonLanniNs && g.ng0 == s.psfGibsonLanniNg0 &&
        g.ng == s.psfGibsonLanniNg && g.ni0 == s.psfGibsonLanniNi0 && g.ni == s.psfGibsonLanniNi &&
        g.ti0 == s.psfGibsonLanniTi0 && g.tg0 == s.psfGibsonLanniTg0 && g.tg == s.psfGibsonLanniTg &&
        g.resPsf == s.psfGibsonLanniResPsf && g.resPsfAxial == s.psfGibsonLanniResPsfAxial &&
        g.solver == s.psfGibsonLanniSolver && g.maxRadius == s.psfGibsonLanniMaxRadius) &&
      (p.Some? && p.value.GibsonLanni? <==>
        !Matches(sel, s.psfGaussian2dText) && !Matches(sel, s.psfGaussian3dText) && Matches(sel, s.psfGibsonLanniText)) &&
      (p.None? <==>
        !Matches(sel, s.psfGaussian2dText) && !Matches(sel, s.psfGaussian3dText) && !Matches(sel, s.psfGibsonLanniText))
  {
  }
}
