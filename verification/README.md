# Domibot core in Dafny

Domibot is a domino-playing robot: a camera looks at the table, a detector
finds the tiles and reads their pips, a planner decides where a tile can be
played, and a SCARA arm (simulated, or real stepper motors, a servo and an
electromagnet) moves it there. This project models the decision-making core
of that system as pure Dafny functions over immutable data and proves what
each piece promises:

- **Perception** (`TileDetector`, `PipScorer`, `Scoring`, `LegacyDetector`,
  with the shared `Geometry`): the area filter for tile contours, integer
  rectangle adjacency with a slack, neighbour counting and the side of the
  single neighbour, the half-box split at the floor midpoint, the
  horizontal/vertical test, the pip acceptance rule with its two area
  windows, which half of a tile is scored, and the list of open-end values.
  The older root copy of the detector is modelled where it differs.
- **Placement** (`Placement`): the bounding-box centre, the stable sort of
  the hand by centre x, shared values, matching open ends, legal directions,
  the new orientation, the edge-to-edge centre offset and the rotation
  lookup.
- **Arm kinematics** (`Kinematics`): joint bookkeeping of both `Domibot`
  classes, the reach and law-of-cosines guards around the numeric solver,
  the two parking poses and the pixel-to-world calibration maps.
- **Drivers** (`Stepper`, `Servo`, `Scara`, `Electromagnet`): the stepper's
  constructor validation, coil patterns, step counter and degree
  conversions; the servo's parameter validation and clamped duty-cycle map;
  the SCARA controller's axis validation, speed lookup, stored angles,
  calibration and pick/place sequence; the electromagnet's state machine.
- **Support state** (`InstanceRegistry`, `CaptureHistory`): the singleton
  resource registry with its creation, lookup, removal and reverse-order
  teardown, and the in-memory capture history with its prefix cleaning,
  generated names, filtering, lookup, loading and deletion.

`PyOps` holds the Python semantics the code relies on: negative list
indexing, `round` (half to even), `%` on floats, the `max(lo, min(hi, x))`
clamp and list filtering.

Every side effect is an input or an output value. Images are functions from
a box to the pip contours found in it (or nothing, when the crop is empty);
contour extraction yields `(area, bounding box)` records and pip contours
`(area, perimeter)`; each GPIO or PWM call is a boolean saying whether it
succeeded; the numeric solver and the trigonometric values are parameters;
what a JSON load returned is a value; commands sent to motors and the magnet
are appended to a log of orders. Python floats are modelled as reals.

## Model

| member | source | states |
|---|---|---|
| Geometry.ParseSide | Virtual_Controllers/Detectar_Domino.py:274-305 | only the four Spanish side names are recognised, and a recognised string is exactly that side's name |
| Geometry.ParseSideName | Virtual_Controllers/Detectar_Domino.py:274-305 | every side's name is recognised as that side (round trip) |
| Geometry.PlaceholdersAreNotSides | Virtual_Controllers/Detectar_Domino.py:28-35 | the placeholder "ninguno" and the empty string are not sides |
| Geometry.Opposite | Virtual_Controllers/Detectar_Domino.py:397-407 | the opposite side differs from the side |
| Geometry.OppositeInvolutive | Virtual_Controllers/Detectar_Domino.py:397-407 | taking the opposite twice gives back the side |
| Geometry.Midpoint | Virtual_Controllers/Detectar_Domino.py:286-303 | the integer midpoint is the floor of the mean and lies between the two coordinates |
| Geometry.ObtenerMitad | Virtual_Controllers/Detectar_Domino.py:274-305 | an unknown side returns the box unchanged; a side keeps the other axis's extent; a well-formed box yields a well-formed sub-box inside it |
| Geometry.HalvesShareMidlineAndCover | Virtual_Controllers/Detectar_Domino.py:274-305 | opposite halves meet at the same midline and together span the whole box; the left half is never wider than the right |
| Geometry.OrientationUnderTranspose | Virtual_Controllers/Detectar_Domino.py:360-377 | swapping a horizontal box's axes makes it vertical; a box that is vertical both ways is square |
| TileDetector.Coordenadas | Virtual_Controllers/Detectar_Domino.py:18-26 | the corner box has the rectangle's width and height, and is well formed for non-negative sizes |
| TileDetector.CoordenadasRoundTrip | Virtual_Controllers/Detectar_Domino.py:18-26 | the rectangle is recovered from the corner box |
| TileDetector.DatosDe | Virtual_Controllers/Detectar_Domino.py:28-35 | the reported neighbour is "ninguno" exactly when no side is known, and otherwise names that side |
| TileDetector.FiltrarContornos | Virtual_Controllers/Detectar_Domino.py:103-106 | every kept contour has an accepted area, and the kept ones are an order-preserving sublist |
| TileDetector.FiltrarContornosKeepsExactly | Virtual_Controllers/Detectar_Domino.py:103-106 | a contour is kept iff its area lies strictly between half and one and a half times the expected size |
| TileDetector.CrearFichas | Virtual_Controllers/Detectar_Domino.py:109-112 | survivors become tiles indexed 0..n-1 in scan order, with no neighbours yet |
| TileDetector.SonAdyacentesSymmetric | Virtual_Controllers/Detectar_Domino.py:150-169 | adjacency gives the same single answer (horizontal tested first) for both argument orders |
| TileDetector.PosicionRelativa | Virtual_Controllers/Detectar_Domino.py:171-179 | the side lies on the adjacency's axis, and is left (up) iff the neighbour's x (y) is strictly smaller |
| TileDetector.PosicionRelativaOpposite | Virtual_Controllers/Detectar_Domino.py:171-179 | seen from the neighbour, the relative side is the opposite one |
| TileDetector.VecinosHasta | Virtual_Controllers/Detectar_Domino.py:123-148 | the neighbour list holds only other tiles that are adjacent, in increasing index order |
| TileDetector.VecinosCountsAdjacentTiles | Virtual_Controllers/Detectar_Domino.py:123-148 | the neighbour list is exactly as long as the set of other adjacent tiles |
| TileDetector.VecinosComplete | Virtual_Controllers/Detectar_Domino.py:123-148 | every other adjacent tile appears in the neighbour list |
| TileDetector.ConVecinosFields | Virtual_Controllers/Detectar_Domino.py:123-148 | the neighbour count is the number of other adjacent tiles; side and neighbour index are set iff that count is 1, and then the index is another adjacent tile and the side is its relative position |
| TileDetector.DeterminarVecinos | Virtual_Controllers/Detectar_Domino.py:123-148 | the loop gives every tile its neighbour fields as the per-tile specification says |
| TileDetector.DetectarFichas | Virtual_Controllers/Detectar_Domino.py:89-121 | tiles come from the kept contours in order, indexed from 0, each counting its adjacent tiles and knowing a side iff it has exactly one neighbour |
| TileDetector.DatosBorde | Virtual_Controllers/Detectar_Domino.py:196-218 | every reported open-end tile names a real side, never the placeholder |
| TileDetector.DatosTodas | Virtual_Controllers/Detectar_Domino.py:426-446 | every tile of the hand is reported, in order, with its data record |
| TileDetector.ObtenerEstado | Virtual_Controllers/Detectar_Domino.py:196-218 | the board state lists exactly the tiles with one neighbour, using slack 35, and each names its neighbour's side |
| TileDetector.DatosBordeHaveOneNeighbour | Virtual_Controllers/Detectar_Domino.py:196-218 | when sides are known exactly for single-neighbour tiles, every reported tile has one neighbour |
| PipScorer.Ventana | Virtual_Controllers/Detectar_Domino.py:339-344 | both pip area windows, (5, 120) for simulation and (200, 650) for the camera, are non-empty |
| PipScorer.PuntosValidos | Virtual_Controllers/Detectar_Domino.py:336-344 | only accepted pip contours are counted |
| PipScorer.ValorDeCuenta | Virtual_Controllers/Detectar_Domino.py:349-354 | a count of at most 6 is the value, and more than 6 gives -1 |
| PipScorer.ValorFicha | Virtual_Controllers/Detectar_Domino.py:307-358 | an unreadable half gives -1; otherwise the value is the accepted count when it is at most 6, and -1 when above |
| PipScorer.RejectedContourIgnored | Virtual_Controllers/Detectar_Domino.py:336-354 | a contour failing the circularity or area test never changes the value |
| PipScorer.AcceptedContourCounts | Virtual_Controllers/Detectar_Domino.py:336-354 | one more accepted contour raises a value below 6 by one, and turns 6 or -1 into -1 |
| PipScorer.ObtenerValorFicha | Virtual_Controllers/Detectar_Domino.py:307-358 | the counting loop computes the pip rule for the chosen window |
| Scoring.LadoInicial | Virtual_Controllers/Detectar_Domino.py:397-407 | with the opposite-value flag a side turns into its opposite and an unknown side into the empty string; without it the side is kept |
| Scoring.AmbasMitades | Virtual_Controllers/Detectar_Domino.py:414-421 | a pair reads both halves, each a pip value in -1..6 |
| Scoring.ObtenerPuntuacionFicha | Virtual_Controllers/Detectar_Domino.py:379-424 | a pair is returned iff no side is known (with the flag or an empty side) or the side is across the tile's long axis; a single value reads the half away from the neighbour (flag) or the named half |
| Scoring.ReadsHalfAwayFromNeighbour | Virtual_Controllers/Detectar_Domino.py:397-407 | for a neighbour along the tile's axis, the scored half is the one on the far side of the midline |
| Scoring.PosiblesFichas | Virtual_Controllers/Detectar_Domino.py:470-474 | each open-end tile contributes exactly one value: the single value, or the first of a pair |
| Scoring.PosiblesFichasAppend | Virtual_Controllers/Detectar_Domino.py:470-474 | the open-end values of two lists of tiles are the values of each, concatenated |
| Scoring.ObtenerEstadoCompleto | Virtual_Controllers/Detectar_Domino.py:448-489 | the full state fails exactly when a hand tile scores as a single value; otherwise there is one border row per border tile detected on the board (area filter, slack 35), each scored with `valor_contrario` set, each with one neighbour and a side, and the open-end list holds one value per border row |
| Scoring.RecorrerMano | Virtual_Controllers/Detectar_Domino.py:479-485 | the hand loop completes iff every hand tile scores as a pair |
| LegacyDetector.ValorFichaAntiguo | Detectar_Domino.py:296-342 | the older pip value is in -1..6 |
| LegacyDetector.PipRuleIsSimulationProfile | Detectar_Domino.py:315-335 | the older pip rule is the newer one with the (5, 120) simulation window |
| LegacyDetector.ObtenerPuntuacionFichaAntigua | Detectar_Domino.py:344-384 | a pair is returned iff the flag is set and no side is known, or the flag is clear and the side is empty; otherwise the chosen half is read, with no orientation check |
| LegacyDetector.ScoringAgreesAlongAxis | Detectar_Domino.py:344-384 | for a neighbour along the tile's axis, the older scorer agrees with the newer one in simulation |
| LegacyDetector.ObtenerEstadoAntiguo | Detectar_Domino.py:188-207 | the older board state lists the tiles with one neighbour, for the fixed size 2900, never with the placeholder side |
| LegacyDetector.ObtenerFichasJugadorAntiguo | Detectar_Domino.py:386-405 | the rows are those of every tile detected in the hand image at area 3900 with slack 15, one per kept contour, and the side is the placeholder exactly when the tile does not have one neighbour |
| Placement.FichaDeFila | Virtual_Controllers/Detectar_Domino.py:457-474 | a scored row becomes a border tile iff its neighbour names a side, keeping its box, side and score |
| Placement.BboxCenter | Virtual_Controllers/Controlador_coordenadas.py:3-19 | the centre is the real mean of the corner coordinates |
| Placement.BboxCenterInside | Virtual_Controllers/Controlador_coordenadas.py:3-19 | the centre of a well-formed box lies inside it |
| Placement.OrdenarPorCoordenadas | Virtual_Controllers/Controlador_coordenadas.py:21-45 | sorting the hand returns a permutation of it |
| Placement.OrdenarPorCoordenadasSpec | Virtual_Controllers/Controlador_coordenadas.py:21-45 | the sorted hand is a permutation with non-decreasing centre x, and tiles with equal centre x keep their input order |
| Placement.ValoresComunes | Virtual_Controllers/Controlador_coordenadas.py:47-74 | the common values are the player values found on the board, in player order, each kept as many times as the tile has it and no other value kept; the flag says the list is non-empty |
| Placement.CoincidenciaIffShared | Virtual_Controllers/Controlador_coordenadas.py:47-74 | the flag is set iff some value of the tile occurs among the open ends |
| Placement.FichasPosibles | Virtual_Controllers/Controlador_coordenadas.py:76-105 | the candidates are the border tiles whose facing value equals the player value, in order, and all of them |
| Placement.FichasPosiblesEmptyIff | Virtual_Controllers/Controlador_coordenadas.py:76-105 | there is no candidate iff no border tile faces the value |
| Placement.Direcciones | Virtual_Controllers/Controlador_coordenadas.py:120-132 | a crosswise (pair) tile offers the three directions other than its neighbour's, a single-valued one only the opposite of its neighbour; the neighbour's direction is never offered |
| Placement.DireccionesDistinct | Virtual_Controllers/Controlador_coordenadas.py:120-132 | the offered directions are pairwise distinct |
| Placement.NuevaOrientacion | Virtual_Controllers/Controlador_coordenadas.py:142-168 | a single-valued origin keeps its orientation; a pair origin flips for left/right and keeps for up/down |
| Placement.CalcularOffset | Virtual_Controllers/Controlador_coordenadas.py:202-234 | the offset points along the direction with half the tile's extent on that axis (half the length along its long axis, half the width across) |
| Placement.CoordenadaRelativaEdgeToEdge | Virtual_Controllers/Controlador_coordenadas.py:170-200 | the new centre moves only along the direction, by the origin's half-extent plus the new tile's half-extent |
| Placement.CalcularCoordenadaJuego | Virtual_Controllers/Controlador_coordenadas.py:107-140 | one target per legal direction, never toward the neighbour, each placed edge to edge with the new orientation |
| Placement.CalcularRotacion | Virtual_Controllers/Controlador_coordenadas.py:236-257 | a single-valued tile has no rotation; choosing the first value gives izquierda -90, derecha 90, arriba 180, abajo 0, and choosing the other gives izquierda 90, derecha 270, arriba 0, abajo 180 |
| Placement.RotacionHalfTurn | Virtual_Controllers/Controlador_coordenadas.py:242-257 | choosing the second value of a tile turns it half a turn relative to choosing the first |
| Placement.RotacionTable | Virtual_Controllers/Controlador_coordenadas.py:242-257 | the eight entries of the rotation table, for the first and for the second value in each direction |
| Kinematics.MoverArticulacion | Virtual_Controllers/Domibot.py:121-138 | only the named joint moves, by the given degrees in radians; a disconnected client or an unknown joint changes nothing |
| Kinematics.MoverArticulacionInverse | Virtual_Controllers/Domibot.py:121-138 | moving a joint by a delta and then by its negation restores the arm |
| Kinematics.AlcanzableIsAnnulus | Virtual_Controllers/Domibot.py:174-204 | the two guards admit exactly the annulus between the links' difference and sum, and inside the reach circle the cosine is at most 1 |
| Kinematics.Solucion | Virtual_Controllers/Domibot.py:141-212 | a solution exists only for a connected arm and a reachable corrected target |
| Kinematics.MoverDomino | Virtual_Controllers/Domibot.py:140-232 | a failed guard or solve leaves the arm unchanged; otherwise joints 1 and 2 move by the solved angles; joint 3 never moves |
| Kinematics.MoverDominoTurnsByRotacion | Virtual_Controllers/Domibot.py:212-227 | after a successful move the tile's heading (joints 1, 2 and 4 together) has turned by exactly the requested rotation |
| Kinematics.MoverDominoRaiz | Domibot.py:140-234 | the older move sets joints 1 and 2 to the solved angles and joint 4 to the yaw, keeps joint 3, and changes nothing on failure |
| Kinematics.MoverDominoRaizForgetsPose | Domibot.py:214-225 | because angles are assigned, the result does not depend on the previous joint 1, 2 and 4 angles |
| Kinematics.MoverPosicionInicial | Virtual_Controllers/Domibot.py:273-285 | the initial pose puts joint 1 at pi/2 and joint 2 at 0, keeping joint 3 |
| Kinematics.MoverPosicionRecta | Virtual_Controllers/Domibot.py:287-298 | the straight pose puts joints 1 and 2 at 0, keeping joint 3 |
| Kinematics.ParkingKeepsHeading | Virtual_Controllers/Domibot.py:273-298 | both parking poses compensate the wrist, so the tile's heading is unchanged |
| Kinematics.PixelAMundo | Virtual_Controllers/Domibot.py:300-314 | the image edges map to the calibrated world limits |
| Kinematics.PixelAMundoAffine | Virtual_Controllers/Domibot.py:300-314 | world x depends only on v and world y only on u, and midpoints map to midpoints |
| Kinematics.CalibracionesCorners | Virtual_Controllers/Domibot.py:300-314 | the simulated camera maps (0,0) to (0.475, 0.30) and (640,480) to (0.025, -0.30); the real one maps them to (0.025, 0.30) and (0.475, -0.30) |
| Kinematics.CalibracionesMirror | Domibot.py:296-309 | the two calibrations mirror x about 0.25 and agree on y |
| Stepper.ParseMode | Hardware_Controllers/drivers/controladors/MotorPasAPasNoNormalitzat.py:32-38 | only "full" and "half" are step modes |
| Stepper.Validar | Hardware_Controllers/drivers/controladors/MotorPasAPasNoNormalitzat.py:32-38 | construction is accepted iff there are four integer pins, a known mode and positive steps and reduction, with the pin error reported first |
| Stepper.CrearMotorTalCom | Hardware_Controllers/drivers/controladors/MotorPasAPasNoNormalitzat.py:32-60 | the constructor as written divides by zero exactly when valid parameters round to zero steps per turn |
| Stepper.TinyReductionDividesByZero | Hardware_Controllers/drivers/controladors/MotorPasAPasNoNormalitzat.py:49-58 | one motor step per turn with reduction 0.25 in half mode rounds to 0 steps and crashes |
| Stepper.CrearMotor | Hardware_Controllers/drivers/controladors/MotorPasAPasNoNormalitzat.py:32-60 | a created motor has at least one step per turn, position 0, the parsed mode and four pins, and is not set up |
| Stepper.CrearMotorRefinesAsWritten | Hardware_Controllers/drivers/controladors/MotorPasAPasNoNormalitzat.py:49-58 | the corrected constructor agrees with the original everywhere except that the crash becomes a validation error |
| Stepper.AngleMinim | Hardware_Controllers/drivers/controladors/MotorPasAPasNoNormalitzat.py:57-58 | the minimum step angle is positive and a full turn's worth of steps adds to 360 degrees |
| Stepper.Patro | Hardware_Controllers/drivers/controladors/MotorPasAPasNoNormalitzat.py:166-185 | each pattern drives four coils with 0 or 1 |
| Stepper.PatroCoils | Hardware_Controllers/drivers/controladors/MotorPasAPasNoNormalitzat.py:166-185 | full step energises one coil; half step energises one coil at even indices and two cyclically adjacent coils at odd ones |
| Stepper.PatroMatchesTables | Hardware_Information/Proves/MotorPasAPas/ProvaMotor.py:24-33 | the generated patterns equal the probe scripts' half-step and full-step tables |
| Stepper.Retard | Hardware_Controllers/drivers/controladors/MotorPasAPasNoNormalitzat.py:187-210 | a non-positive speed is an error; otherwise the delay is positive, at most 10 seconds, and above the minimum rate it is one step angle per unit of speed |
| Stepper.RetardMonotone | Hardware_Controllers/drivers/controladors/MotorPasAPasNoNormalitzat.py:187-210 | a faster speed never gives a longer delay |
| Stepper.MoureNPassos | Hardware_Controllers/drivers/controladors/MotorPasAPasNoNormalitzat.py:219-252 | a motor not set up ignores the call; a negative count or non-positive speed is an error; otherwise only the position changes, by exactly the count in the chosen direction |
| Stepper.MoureNPassosInverse | Hardware_Controllers/drivers/controladors/MotorPasAPasNoNormalitzat.py:219-252 | moving back the same count restores the motor |
| Stepper.SequenciaBobines | Hardware_Controllers/drivers/controladors/MotorPasAPasNoNormalitzat.py:228-252 | the coils receive the pattern of each successive position and are de-energised at the end |
| Stepper.NextStepIsNextRow | Hardware_Controllers/drivers/controladors/MotorPasAPasNoNormalitzat.py:166-185 | one step forward (backward) emits the next (previous) row of the half-step table |
| Stepper.PassosPerGraus | Hardware_Controllers/drivers/controladors/MotorPasAPasNoNormalitzat.py:268-276 | the step count is the half-to-even rounding of the angle's share of a turn, raised to 1 for a small positive angle, and 0 only for 0 degrees |
| Stepper.MoureNGraus | Hardware_Controllers/drivers/controladors/MotorPasAPasNoNormalitzat.py:255-276 | a negative angle is an error, otherwise the motor moves by the converted step count |
| Stepper.PosicioGraus | Hardware_Controllers/drivers/controladors/MotorPasAPasNoNormalitzat.py:340-345 | the absolute angle is the step count times the step angle |
| Stepper.MoureAGraus | Hardware_Controllers/drivers/controladors/MotorPasAPasNoNormalitzat.py:278-310 | within half a step of the target nothing moves; otherwise the motor steps toward the unnormalised target, backward iff it is smaller |
| Stepper.MoureAGrausDoesNotNormalise | Hardware_Controllers/drivers/controladors/MotorPasAPasNoNormalitzat.py:278-310 | moving from 0 to 360 degrees makes a full turn rather than staying put |
| Stepper.Calibrar | Hardware_Controllers/drivers/controladors/MotorPasAPasNoNormalitzat.py:312-338 | calibration fails only on a negative angle or non-positive speed and otherwise leaves the position at 0 |
| Stepper.PosicioNormalitzada | Hardware_Controllers/drivers/controladors/MotorPasAPasNoNormalitzat.py:353-362 | the normalised angle lies in [0, 360) and differs from the absolute angle by whole turns |
| Stepper.FullTurnKeepsNormalisedPosition | Hardware_Controllers/drivers/controladors/MotorPasAPasNoNormalitzat.py:353-362 | a full turn in either direction leaves the normalised angle unchanged |
| Stepper.ConfigurarGpio | Hardware_Controllers/drivers/controladors/MotorPasAPasNoNormalitzat.py:94-110 | setup only ever sets the configured flag, and only when the GPIO calls succeed |
| Stepper.NetejarGpio | Hardware_Controllers/drivers/controladors/MotorPasAPasNoNormalitzat.py:112-150 | cleanup de-energises the coils of a configured motor and clears the flag when the release succeeds |
| Stepper.GpioLifecycle | Hardware_Controllers/drivers/controladors/MotorPasAPasNoNormalitzat.py:94-150 | setup is idempotent, and setup followed by a successful cleanup restores the motor |
| Servo.Validar | Hardware_Controllers/drivers/controladors/Servomotor.py:161-197 | parameters are accepted iff the frequency is positive, the validation limits are ordered, and the operating angle and duty ranges have min strictly below max within those limits; the frequency error is reported first |
| Servo.ValidarExamples | Hardware_Controllers/drivers/controladors/Servomotor.py:43-56 | the default parameters are valid, a valid operating range is non-empty, and a zero frequency is rejected |
| Servo.DutyPerAngle | Hardware_Controllers/drivers/controladors/Servomotor.py:251-302 | the duty cycle is the calibration line at the clamped angle, clamped to the validation range, so it always lies in that range |
| Servo.InterpolationIsCalibration | Hardware_Controllers/drivers/controladors/Servomotor.py:256-299 | interpolating between the operating-range ends is the same line as the 0-180 degree calibration |
| Servo.ClampedAnglesMapLikeEnds | Hardware_Controllers/drivers/controladors/Servomotor.py:251-253 | angles below (above) the operating range give the same duty as its minimum (maximum) |
| Servo.DutyPerAngleMonotone | Hardware_Controllers/drivers/controladors/Servomotor.py:251-302 | a larger angle never gives a smaller duty cycle |
| Servo.DutyCalibratMonotone | Hardware_Controllers/drivers/controladors/Servomotor.py:256-299 | the calibration line is non-decreasing |
| Servo.DefaultCalibrationPoints | Hardware_Controllers/drivers/controladors/Servomotor.py:43-56 | with the defaults, 0, 90 and 180 degrees give duty 2.5, 7.5 and 12.5, and -30 degrees is clamped to 2.5 |
| Servo.CrearServo | Hardware_Controllers/drivers/controladors/Servomotor.py:103 | a servo exists iff its parameters are valid, and starts without PWM and uninitialised |
| Servo.Entrar | Hardware_Controllers/drivers/controladors/Servomotor.py:112-130 | the servo is initialised iff creating and starting the PWM both succeed |
| Servo.Sortir | Hardware_Controllers/drivers/controladors/Servomotor.py:132-143 | leaving the context makes the servo uninitialised |
| Servo.MoureAAngle | Hardware_Controllers/drivers/controladors/Servomotor.py:304-324 | a duty cycle is issued iff the servo is initialised with a PWM, and it is the mapped duty for the angle |
| Servo.MovesOnlyInsideContext | Hardware_Controllers/drivers/controladors/Servomotor.py:304-324 | a servo moves only between a successful enter and the exit |
| Scara.LlegirOffsets | Hardware_Controllers/drivers/ScaraController.py:78-85 | the initial angles are read iff every axis and its offset exist; otherwise a KeyError |
| Scara.ValidarEixos | Hardware_Controllers/drivers/ScaraController.py:103-115 | the configuration is accepted iff every axis has limits, a non-empty speed list, an offset and a positive reduction |
| Scara.CrearScara | Hardware_Controllers/drivers/ScaraController.py:68-115 | a controller exists iff the configuration is valid, with stored angles at the offsets and no commands sent |
| Scara.MissingAxisIsKeyError | Hardware_Controllers/drivers/ScaraController.py:78-85 | a missing axis raises KeyError before validation can report it |
| Scara.NomEix | Hardware_Controllers/drivers/ScaraController.py:118-124 | ids 0..3 name the four axes and any other id is an error |
| Scara.ValidarAngle | Hardware_Controllers/drivers/ScaraController.py:134-149 | an angle is valid iff it lies within the axis limits inclusive; an unknown axis is an error |
| Scara.Velocitat | Hardware_Controllers/drivers/ScaraController.py:151-167 | speed lookup follows Python indexing, negative indices counting from the end, and fails out of range |
| Scara.MoureSolEix | Hardware_Controllers/drivers/ScaraController.py:171-215 | an unknown axis is an error; a move succeeds iff the angle is in limits, the speed index exists and the axis has a driven motor, and then only that axis's stored angle changes and one move command is sent; a failure changes nothing |
| Scara.DefaultIndexNeedsTwoSpeeds | Hardware_Controllers/drivers/ScaraController.py:151-171 | with the default speed index -2, an axis with a single speed never moves |
| Scara.MoureSolEixCommutes | Hardware_Controllers/drivers/ScaraController.py:253-285 | moves of two different axes give the same angles, commands and success in either order |
| Scara.MouAPosicioEixos | Hardware_Controllers/drivers/ScaraController.py:218-285 | any out-of-limits target fails before anything moves; otherwise each axis that can move reaches its target and the call succeeds iff all of them can |
| Scara.CalibrarEix | Hardware_Controllers/drivers/ScaraController.py:319-352 | calibrating a stepper axis resets its stored angle to its offset and leaves the others |
| Scara.CalibrarRobot | Hardware_Controllers/drivers/ScaraController.py:319-352 | the three stepper axes and the servo wrist return to their offsets |
| Scara.CalibrarRestoresInitialAngles | Hardware_Controllers/drivers/ScaraController.py:319-352 | on the standard robot, calibration restores the angles the controller started with |
| Scara.GestionarObjecte | Hardware_Controllers/drivers/ScaraController.py:356-432 | an invalid safety height does nothing; success issues safety pose, lowering, magnet and raising in that order; a failure stops at the first failed step |
| Scara.MagnetOnlyAfterLowering | Hardware_Controllers/drivers/ScaraController.py:356-432 | every magnet command is issued immediately after lowering to the object |
| Electromagnet.Setup | Hardware_Controllers/drivers/controladors/versionsAntigas/Electroiman.py:38-54 | setup configures an unconfigured pin iff the GPIO call succeeds and never touches the magnet state |
| Electromagnet.Crear | Hardware_Controllers/drivers/controladors/versionsAntigas/Electroiman.py:5-10 | a new magnet is off, and configured iff its setup succeeded |
| Electromagnet.SetupIdempotent | Hardware_Controllers/drivers/controladors/versionsAntigas/Electroiman.py:38-54 | repeating setup on a configured magnet changes nothing |
| Electromagnet.Activar | Hardware_Controllers/drivers/controladors/versionsAntigas/Electroiman.py:76-93 | an unconfigured magnet refuses; otherwise the pin write decides both the answer and the recorded state |
| Electromagnet.Desactivar | Hardware_Controllers/drivers/controladors/versionsAntigas/Electroiman.py:95-114 | an unconfigured magnet refuses; a successful write turns it off and a failed one leaves the state as it was |
| Electromagnet.Netejar | Hardware_Controllers/drivers/controladors/versionsAntigas/Electroiman.py:56-74 | cleanup of a configured magnet switches it off first and releases the pin iff the release succeeds; otherwise nothing happens |
| Electromagnet.Entrar | Hardware_Controllers/drivers/controladors/versionsAntigas/Electroiman.py:20-27 | entering the context is a setup |
| Electromagnet.ActivateThenCleanup | Hardware_Controllers/drivers/controladors/versionsAntigas/Electroiman.py:56-93 | an activated magnet ends off and released after a successful cleanup, and a second cleanup does nothing |
| Electromagnet.FailedCleanupLeavesMagnetOn | Hardware_Controllers/drivers/controladors/versionsAntigas/Electroiman.py:56-74 | a failed switch-off during cleanup leaves the magnet recorded as on with a released pin, which no later command can clear |
| Electromagnet.NoCommandsAfterCleanup | Hardware_Controllers/drivers/controladors/versionsAntigas/Electroiman.py:76-93 | after release, activation is refused and the magnet state stays as cleanup left it |
| InstanceRegistry.Singleton | Hardware_Controllers/drivers/GestorInstancies.py:15-20 | the stored instance is returned once one exists |
| InstanceRegistry.SingletonIsUnique | Hardware_Controllers/drivers/GestorInstancies.py:15-20 | every construction after the first returns the first instance |
| InstanceRegistry.CrearAmbPassos | Hardware_Controllers/drivers/GestorInstancies.py:108-126 | a registered name returns its resource without creating anything; a new object is registered and returned iff its extra steps succeed, and is entered either way |
| InstanceRegistry.CrearTalComEsEscrit | Hardware_Controllers/drivers/GestorInstancies.py:67-70 | as written, creation never registers anything |
| InstanceRegistry.EveryCreationFailsAsWritten | Hardware_Controllers/drivers/GestorInstancies.py:108-126 | as written, every new creation enters the object and then returns None |
| InstanceRegistry.CrearIEntrar | Hardware_Controllers/drivers/GestorInstancies.py:108-126 | with the hook fixed, creating a non-database resource registers it under its name and returns it |
| InstanceRegistry.ObtenirRecurs | Hardware_Controllers/drivers/GestorInstancies.py:128-132 | a resource is found iff its name is registered, and the one found is the resource stored under that name |
| InstanceRegistry.CreatedResourceIsRetrievable | Hardware_Controllers/drivers/GestorInstancies.py:108-132 | a created resource is what lookup returns, and creating it again returns it unchanged |
| InstanceRegistry.SortirIDestruir | Hardware_Controllers/drivers/GestorInstancies.py:134-147 | removal succeeds iff the name is registered; then the registry is the old one with exactly that name's slot cut out and the rest in order, the GPIO fields are unchanged and the log gains at most one exit event for that name; otherwise nothing changes |
| InstanceRegistry.TreureValid | Hardware_Controllers/drivers/GestorInstancies.py:134-147 | removal keeps names unique and shortens the registry by one iff the name was present |
| InstanceRegistry.TreureAbsent | Hardware_Controllers/drivers/GestorInstancies.py:144 | removing a name that is not stored leaves the registry as it is |
| InstanceRegistry.TreureTalla | Hardware_Controllers/drivers/GestorInstancies.py:144 | deleting a stored name removes exactly its slot and keeps the other entries in insertion order |
| InstanceRegistry.SortidesInverses | Hardware_Controllers/drivers/GestorInstancies.py:39-65 | teardown emits at most one exit event per registered resource, each naming a registered resource |
| InstanceRegistry.Sortir | Hardware_Controllers/drivers/GestorInstancies.py:39-65 | teardown leaves the registry empty and the GPIO released, only adding exit events |
| InstanceRegistry.ExitReversesRegistration | Hardware_Controllers/drivers/GestorInstancies.py:46-57 | resources are exited in reverse registration order |
| InstanceRegistry.ConfigurarGpioMode | Hardware_Controllers/drivers/GestorInstancies.py:78-105 | the mode is set only when GPIO exists, it was not yet set and the call succeeds; "BOARD" selects board numbering and anything else BCM |
| InstanceRegistry.GpioModeSetOnce | Hardware_Controllers/drivers/GestorInstancies.py:78-105 | once set, later mode requests are ignored |
| CaptureHistory.Strip | Hardware_Controllers/drivers/FileManager.py:41 | stripping removes exactly the leading and trailing whitespace |
| CaptureHistory.StripAllSpaces | Hardware_Controllers/drivers/FileManager.py:41 | a whitespace-only string strips to empty |
| CaptureHistory.StripKeepsTrimmed | Hardware_Controllers/drivers/FileManager.py:41 | a string without outer whitespace is unchanged |
| CaptureHistory.NetejarPrefix | Hardware_Controllers/drivers/FileManager.py:41 | the cleaned prefix is the stripped prefix with every space turned into an underscore, so it has no spaces and no outer whitespace |
| CaptureHistory.NetejarPrefixIdempotent | Hardware_Controllers/drivers/FileManager.py:41 | cleaning twice is cleaning once, and a blank prefix becomes empty |
| CaptureHistory.NomHistorial | Hardware_Controllers/drivers/FileManager.py:352-359 | the history file is "historial.json" for an empty prefix and "historial_" + prefix + ".json" otherwise |
| CaptureHistory.NomHistorialInjective | Hardware_Controllers/drivers/FileManager.py:352-359 | different prefixes give different history files |
| CaptureHistory.GenerarNom | Hardware_Controllers/drivers/FileManager.py:218-230 | a capture name is the prefix and an underscore (when there is a prefix), then the type, an underscore, the timestamp, a dot and the extension, each part at its position and nothing else |
| CaptureHistory.GenerarNomSplits | Hardware_Controllers/drivers/FileManager.py:218-230 | a prefixed name is the prefix and an underscore before the unprefixed name |
| CaptureHistory.AfegirAHistorial | Hardware_Controllers/drivers/FileManager.py:361-373 | adding keeps the history and appends one entry with the given path, name and type |
| CaptureHistory.NetejarHistorial | Hardware_Controllers/drivers/FileManager.py:460-466 | after clearing, no filter lists and no identifier finds an entry |
| CaptureHistory.ObtenirHistorial | Hardware_Controllers/drivers/FileManager.py:417-428 | without a filter the whole history is returned, with one exactly the entries of that type in order |
| CaptureHistory.FilteredHistoryAfterAdd | Hardware_Controllers/drivers/FileManager.py:417-428 | adding an entry extends a filtered view by that entry iff it has the filter's type |
| CaptureHistory.ObtenirEntrada | Hardware_Controllers/drivers/FileManager.py:430-458 | a name finds the most recent entry with that file name, an index follows Python indexing, and an empty view or another identifier finds nothing |
| CaptureHistory.AddedEntryIsFound | Hardware_Controllers/drivers/FileManager.py:430-458 | a just-added entry is found both by its name and by index -1 |
| CaptureHistory.CarregarHistorial | Hardware_Controllers/drivers/FileManager.py:389-415 | a loaded list is accepted iff every item is an object with a path and a type, and otherwise the history is empty |
| CaptureHistory.SavedHistoryReloads | Hardware_Controllers/drivers/FileManager.py:389-415 | a history of well-formed entries reloads as itself |
| CaptureHistory.CrearGestor | Hardware_Controllers/drivers/FileManager.py:26-53 | a new manager has the cleaned prefix and the loaded history |
| CaptureHistory.CanviarDirectori | Hardware_Controllers/drivers/FileManager.py:149-173 | a non-string or blank directory name is rejected; otherwise the history is reloaded from the new location |
| CaptureHistory.BlankDirectoryRejected | Hardware_Controllers/drivers/FileManager.py:160-161 | a whitespace-only name is rejected and a trimmed non-empty one accepted |
| CaptureHistory.TreurePrimera | Hardware_Controllers/drivers/FileManager.py:512 | removal cuts out the first entry equal to the given one, keeping the others in order |
| CaptureHistory.Objectiu | Hardware_Controllers/drivers/FileManager.py:468-500 | the file to delete is the found entry's path, unless an absolute path names it directly |
| CaptureHistory.EliminarCaptura | Hardware_Controllers/drivers/FileManager.py:468-518 | deletion succeeds iff a non-empty path is found and the file is absent or its removal works; success drops one occurrence of the found entry and a failure changes nothing |
| CaptureHistory.DeleteExamples | Hardware_Controllers/driversTest/test.fileManager-1V.py:176-187 | deleting a name not in the history fails with the history unchanged |
| CaptureHistory.DeleteUndoesAdd | Hardware_Controllers/drivers/FileManager.py:468-518 | deleting a just-added capture by name, even when its file is already gone, restores the previous history |
| PyOps.RoundHalfEvenUnique | Hardware_Controllers/drivers/controladors/MotorPasAPasNoNormalitzat.py:49-58 | the model of `round` is the only integer within half a unit that sends ties to an even number |
| PyOps.FloatModUnique | Hardware_Controllers/drivers/controladors/MotorPasAPasNoNormalitzat.py:353-362 | the model of float `%` is the only remainder in [0, m) congruent to the input |

## Left out

- Image processing (reading and saving images, HSV thresholding, contour finding, areas, perimeters, bounding rectangles, crops, display): contours and pip measurements are inputs, and a board image is a function from a box to the pip contours found in it.
- `_guardar_fichas_borde`, `procesar_imagen` and `Obtener_Ficha_Imagen`: image and file output only.
- Symbolic forward kinematics, `nsolve`, `acos`, `atan2`, `hypot` and the roll/yaw rotation matrices: the solver and the trigonometric values are parameters, and only the guards and joint bookkeeping around them are modelled. The reach guard is stated on the squared radius, which is equivalent because the radius is non-negative.
- The CoppeliaSim remote API and the photo and suction-pad calls: not modelled; the joint angles are kept in the model's own state.
- GPIO pin writes, PWM, `time.sleep` and printing: each call is a boolean that says whether it succeeded, and delays are computed but never waited.
- Kinematics.Solucion: states that a solution implies a connected arm and a reachable target, not which angles the solver returns, because `nsolve` is a floating-point root finder.
- Scara.MouAPosicioEixos: the per-axis threads run sequentially in the model, justified by `Scara.MoureSolEixCommutes`; an exception inside a thread, which the original records as success, is not modelled.
- Scara.MoureSolEix: errors raised by the motor drivers themselves during a move are not modelled.
- `aturada_emergencia` and the `activar_pinça`/`desactivar_pinça` wrappers: only the magnet command they send appears, as an order in `Scara.GestionarObjecte`.
- InstanceRegistry.Sortir: the result of the GPIO cleanup at exit is not modelled, and the exit hook's own NameError is not observable because every registered resource would have made creation fail first.
- InstanceRegistry.SortirIDestruir: the exit hook as written (GestorInstancies.py:72-75) names the same undefined class as the entry hook, so its NameError would be caught by the `try` at lines 138-142 and `__exit__` skipped; this is not modelled because no resource is ever registered as written, and the model uses the hook as intended (only a database connection runs extra steps).
- The singleton lock and all other concurrency.
- JSON persistence, directory discovery and creation, `os.path.abspath`/`basename` and `os.remove`: the loaded value, absolute paths, time stamps, whether the file exists and whether removal works are inputs; metadata is a map from strings to strings, and a JSON null and an absent key are both `None`.
- CaptureHistory.EliminarCaptura: an absolute path is recognised by a leading '/', as on POSIX.
- Stepper.PosicioNormalitzada: real arithmetic replaces floating point, so a float remainder that rounds up to exactly 360.0 is not modelled, and the negative-remainder correction is dead code.
- Stepper.MoureNPassos: a non-integer step count cannot be passed, since counts are integers here.
- Scoring.ObtenerEstadoCompleto: the TypeError raised when a hand tile scores as a single value is modelled as the result `None`.
- The root `Domibot.py` copy of `move_joint_by_delta` is identical to the virtual one and is modelled once, as `Kinematics.MoverArticulacion`.
- The adjacency, neighbour and half-box code of the root `Detectar_Domino.py` is identical to the newer copy and is modelled once in `TileDetector` and `Geometry`.
- Where the documentation describes `moure_a_graus` as normalising its target modulo 360, the model follows the code, which does not (`Stepper.MoureAGrausDoesNotNormalise`).

## Findings

| source | as written | input that shows it | evidently intended | confidence | as-written member | corrected member |
|---|---|---|---|---|---|---|
| Hardware_Controllers/drivers/controladors/MotorPasAPasNoNormalitzat.py:49-58 | steps per turn are rounded and then divided into 360 without a check | 1 motor step per turn, reduction 0.25, mode "half": round(0.5) = 0 and 360/0 raises ZeroDivisionError | reject parameters that give zero steps per turn with a validation error | not executed | Stepper.CrearMotorTalCom (Stepper.TinyReductionDividesByZero) | Stepper.CrearMotor (Stepper.CrearMotorRefinesAsWritten) |
| Hardware_Controllers/drivers/GestorInstancies.py:67-70 | the extra-steps hook tests `isinstance(..., ConnexioBDCM)`, a class that exists only inside a string literal, so it raises NameError | any new name with a constructible resource: the object is created and entered, then the NameError is caught and None is returned, leaving the entered object unregistered | register and return the entered resource, running the database steps only for database connections | not executed | InstanceRegistry.CrearTalComEsEscrit (InstanceRegistry.EveryCreationFailsAsWritten) | InstanceRegistry.CrearIEntrar (InstanceRegistry.CreatedResourceIsRetrievable) |
