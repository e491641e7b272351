# Marker-driven AR games, modelled in Dafny

This project models the logic of two augmented-reality games and of a small
perspective tool.

- **2D fruit game.**
  - ArUco markers on a printed board tell the game where the board is.
  - The camera frame is warped onto the game window.
  - A dark object held in front of the board is tracked as a sword. Its tip is the highest point among the dark contours large enough to count. Its hilt is the point of that contour's bottom band nearest the band's median x.
  - Fruits and bombs fly in from the sides of the window. Slicing one adds its points. A fruit that leaves the window costs half its points.
  - Reaching a level's target starts a three-second countdown, after which a harder level begins.
- **3D battle game.** Every marker carries a character. A character stays visible for a second after its marker was last seen. When the first two visible, living characters stand close enough, one attacks the other.
- **Perspective extraction tool.** The user clicks four corners. The tool orders them clockwise from the top-left and warps the region onto a rectangle.

Foreign calls become parameters or abstract values:

- OpenCV: marker detection, contour tracing, contour area, perspective warps, the pose solver.
- PIL: decoding and rotating images.
- The wall clock and the random draws.

The modules follow the source files:

| Dafny file | module | source file |
|---|---|---|
| seqs.dfy, geometry.dfy | `Seqs`, `Geometry` | shared helpers: Option, a stable sort, argmin, filter, means, squared distance, the clockwise order of four items, the destination rectangle |
| marker_detection.dfy | `MarkerDetection` | ar_game/marker_detection.py |
| perspective_transformer.dfy | `PerspectiveTransformer` | ar_game/perspective_transformer.py |
| image_extractor.dfy | `ImageExtractor` | perspective_transformation/image_extractor.py |
| object_detection.dfy | `ObjectDetection` | ar_game/src/object_detection.py |
| level_manager.dfy | `Levels` | the rules of ar_game/src/level_manager.py |
| game_manager.dfy | `Game` | ar_game/src/game_manager.py, plus the `LevelManager` class of ar_game/src/level_manager.py |
| game_object.dfy | `GameObjects` | ar_game/src/game_object.py |
| vector_2d.dfy | `Vector2D` | ar_game/src/vector_2d.py |
| image_loader.dfy | `Images` | ar_game/src/image_loader.py |
| character.dfy | `Characters` | ar_game_3d/character.py |
| game_manager_3d.dfy | `Battle` | ar_game_3d/src/game_manager.py |
| utils_3d.dfy | `MarkerPose` | ar_game_3d/utils.py |

Code that changes state step by step is written as classes with methods. These are:

- the marker cache;
- the click handler;
- the level manager, the game manager and the game objects;
- the characters and the 3D game manager;
- the image loader.

Each such method is proved against functions on values. Lemmas then state the game's rules about those functions.

## Behaviour of the code that may not be intended

The model follows the code in each case below.

- **Board corners.** With three markers, or with more than four, the board detector returns exactly three inner corners. They come from the three markers highest in the image. No fourth corner is extrapolated.
- **Marker ids.** No list of accepted marker ids is checked. Any id goes into the cache.
- **Board handling.** There is no state machine for board availability. There is no background worker and no hand-off queue. Each frame is computed directly.
- **Lost fruits.** A lost fruit costs `points // 2` through `increment_points` with a negative amount. `decrement_points` is never called.
- **3D marker position.** In the 3D game `marker_position` is a pair of numbers. Its truth test is the same as "not None".
- **Failed roll.** A failed roll cancels the attack outright. The second character does not get a turn instead.
- **Hit during a collision pass.** Slicing an object removes it from the list during the pass. The next object then takes the slot that was just checked, so it is skipped in that pass.
- **Image cache.** The image loader caches sprites by file name only. A later request for the same name with another rotation or scale returns the first sprite. The composite key `name_rotation_scale` is looked up but never stored. In the 2D game a new loader is made for every request, so its cache never hits there.

## Model

| member | source | states |
|---|---|---|
| `MarkerDetection.InnerCornerSpec` | ar_game/marker_detection.py:16-19 | The inner corner is one of the marker's own four corners. No corner is closer to the board centre. No earlier corner is as close (argmin keeps the first minimum). |
| `MarkerDetection.DescribeCentre` | ar_game/marker_detection.py:42-45 | A marker's centre is the componentwise mean of its four corners. |
| `MarkerDetection.MarkerDetector.Remember` | ar_game/marker_detection.py:34-37 | One detection overwrites its id's cache entry with its corners stamped with the current time. A new id joins the end of the key order. |
| `MarkerDetection.CacheAfterSpec` | ar_game/marker_detection.py:33-37 | After a frame the cache holds exactly the old ids plus the detected ones. An undetected id keeps its entry; nothing is evicted. A detected id holds the corners of its last sighting, stamped now. |
| `MarkerDetection.OrderAfterSpec` | ar_game/marker_detection.py:33-37 | The cache's key order only grows at its end, keeps no duplicates, and lists exactly the old and the detected ids. |
| `MarkerDetection.FreshData` | ar_game/marker_detection.py:40-46 | One entry per detected marker, in detection order, each the described marker. |
| `MarkerDetection.CachedData` | ar_game/marker_detection.py:49-54 | Every entry is a cached marker whose age is strictly below the timeout, and every such marker is included. The definition lists them in key order; the contract does not state the order. |
| `MarkerDetection.WorkingSetSpec` | ar_game/marker_detection.py:39-57 | The working set is empty or has at least three markers. With three or more fresh detections it is exactly those. Every centre is the mean of its corners. |
| `MarkerDetection.SeenMarkersAreRecent` | ar_game/marker_detection.py:33-57 | A marker seen in this frame is recent in the updated cache. When the cache is used, it contributes its newest corners. |
| `MarkerDetection.MarkerDetector.GetMarkerData` | ar_game/marker_detection.py:21-57 | The loop-based update leaves the cache and key order equal to `CacheAfter`/`OrderAfter`. The markers returned equal `WorkingSet`. |
| `MarkerDetection.MarkerDetector.GetBoardData` | ar_game/marker_detection.py:59-85 | One frame updates the cache and returns `BoardFrom` of the working set. |
| `MarkerDetection.BoardFrom` | ar_game/marker_detection.py:62-85 | There is no board exactly when fewer than three markers are usable. Otherwise there are four inner corners for four markers and three for any other count. |
| `MarkerDetection.FourMarkerBoard` | ar_game/marker_detection.py:71-75 | With four markers the board markers are a rearrangement of the four. The top two by centre y come before the bottom two. The top pair runs left to right and the bottom pair right to left. |
| `MarkerDetection.OtherMarkerBoard` | ar_game/marker_detection.py:76-77 | With another count the board markers are the first three of the stable y-sort. They are in y order and none is lower than any marker left out. |
| `MarkerDetection.BoardCornersAreInner` | ar_game/marker_detection.py:79-83 | Each board corner is the inner corner of a distinct usable marker. The board centre is the mean of the marker centres. |
| `MarkerDetection.BoardCentreInBox` | ar_game/marker_detection.py:65-66 | The board centre lies in every box that holds all marker centres. |
| `Seqs.SortBySorted` | ar_game/marker_detection.py:69 | The stable sort standing for `argsort`/`sorted` returns its input ordered by the key. |
| `Seqs.SortByOfSorted` | ar_game/marker_detection.py:73-74 | Sorting an already sorted sequence changes nothing, so ties keep input order. |
| `Seqs.ArgMin` | ar_game/marker_detection.py:19 | numpy's argmin: an index of a minimum, and no earlier index holds that minimum. |
| `Geometry.ClockwiseOrderSpec` | perspective_transformation/image_extractor.py:66-75 | Sorting four items by y and each pair by x is a rearrangement. The top pair is no lower than the bottom pair, and the pairs read TL, TR, BR, BL. |
| `Geometry.MeanInBox` | ar_game/marker_detection.py:65-66 | A mean of points lies in every box that holds them all. |
| `PerspectiveTransformer.Classify` | ar_game/perspective_transformer.py:38-47 | "Above" means strictly smaller y and "left" means strictly smaller x. A point on the centroid's row is not above, and one on its column is not left. |
| `PerspectiveTransformer.QuadrantOrderSucceeds` | ar_game/perspective_transformer.py:25-50 | The ordering succeeds exactly when there are four points and every quadrant around their mean holds one. |
| `PerspectiveTransformer.SharedQuadrantFails` | ar_game/perspective_transformer.py:37-49 | Two points in the same quadrant make the ordering fail. |
| `PerspectiveTransformer.QuadrantOrderSpec` | ar_game/perspective_transformer.py:37-50 | On success the result is a rearrangement of the input. Slot 0 is strictly above and left of the mean; slot 1 strictly above and not left; slot 2 neither above nor left; slot 3 not above and strictly left. |
| `PerspectiveTransformer.QuadrantOrderOfRect` | ar_game/perspective_transformer.py:25-50 | The destination rectangle, ordered, is returned unchanged. |
| `PerspectiveTransformer.OrderPoints` | ar_game/perspective_transformer.py:25-50 | The slot-overwriting loop computes `QuadrantOrder`: each slot holds the last point that fell in it. |
| `PerspectiveTransformer.Transform` | ar_game/perspective_transformer.py:7-23 | No warp without four points, without a frame, or when ordering fails. Otherwise the frame is warped from the ordered points to the window rectangle (0,0), (W-1,0), (W-1,H-1), (0,H-1). |
| `ImageExtractor.OrderPointsSpec` | perspective_transformation/image_extractor.py:58-81 | The ordering fails exactly when there are not four points or two coincide. On success it is a rearrangement into a quad: the top pair is no lower than the bottom pair, tl.x <= tr.x and bl.x <= br.x. |
| `ImageExtractor.OrderPointsOfRect` | perspective_transformation/image_extractor.py:58-81 | An output rectangle already in clockwise order is kept as it is. |
| `ImageExtractor.TransformPerspective` | perspective_transformation/image_extractor.py:45-55 | The warp maps the given points to (0,0), (w-1,0), (w-1,h-1), (0,h-1). |
| `ImageExtractor.ImageTransformer.HandleClick` | perspective_transformation/image_extractor.py:22-43 | Only a left press with fewer than four points counts. The first three clicks append. A fourth is refused exactly when ordering fails, otherwise the points become their ordered form. The count never exceeds four and four points always form a quad. |
| `ObjectDetection.BestSpec` | ar_game/src/object_detection.py:89-109 | No contour is chosen exactly when none reaches the area minimum. The chosen one is large enough, has the strictly smallest highest row among those before it, and no later one is higher (ties keep the earlier). |
| `ObjectDetection.FindHighestPoint` | ar_game/src/object_detection.py:85-122 | The loop picks the contour `Best` picks. The tip is the first point on its highest row, with y flipped as window height minus y. |
| `ObjectDetection.BandSpec` | ar_game/src/object_detection.py:62-69 | The bottom band is the contour points at most 20 rows above its lowest row, in contour order. It is never empty. |
| `ObjectDetection.Nearest` | ar_game/src/object_detection.py:75-79 | The band point whose x is nearest the band's median x; the first such on ties. |
| `ObjectDetection.FindLowestPointSpec` | ar_game/src/object_detection.py:56-83 | The hilt is missing exactly when the contour is missing or empty. Otherwise it is a band point nearest the median, with y flipped. |
| `ObjectDetection.HiltIsNearest` | ar_game/src/object_detection.py:75-82 | The reported hilt is the nearest-to-median band point. |
| `ObjectDetection.OddBandHitsMedian` | ar_game/src/object_detection.py:75-80 | With an odd number of band points the hilt's x is the median itself. |
| `ObjectDetection.HiltBelowTip` | ar_game/src/object_detection.py:65-82 | Within one contour the hilt's flipped y never exceeds the tip's. |
| `ObjectDetection.DetectObject` | ar_game/src/object_detection.py:13-54 | The tip and the hilt are both missing exactly when no contour reaches the area minimum. Otherwise they come from the chosen contour. |
| `Levels.RequiredPointsGrow` | ar_game/src/level_manager.py:67-68 | A level needs 30 points at level 1 and ten more per level. |
| `Levels.GainSpec` | ar_game/src/level_manager.py:73-76 | A gain levels up exactly when the points reach the target, then by one level only: points restart at 0 (surplus lost), the target grows by 10 and a 3-second countdown starts. Otherwise only the points change. |
| `Levels.LossesKeepLevel` | ar_game/src/level_manager.py:73-76 | Gains of zero or less never change the level or the countdown. |
| `Levels.GainAllLevels` | ar_game/src/level_manager.py:73-76 | A series of gains raises the level by at most one per gain. |
| `Levels.GainAllAppend` | ar_game/src/level_manager.py:73-76 | Gains one after the other compose. |
| `Levels.DropSpec` | ar_game/src/level_manager.py:79-81 | A loss subtracts and keeps the level and the target. |
| `Levels.TickSpec` | ar_game/src/level_manager.py:112-122 | A tick does nothing while the countdown is off. Otherwise it takes one second off, stopping the countdown when the time is used up. |
| `Levels.CountdownLastsThreeTicks` | ar_game/src/level_manager.py:103-122 | After a level-up the countdown ends on the third tick. |
| `Levels.DifficultyBounded` | ar_game/src/level_manager.py:99-101 | The fruit minimum is min(20, 10 + 2·level) and the bomb chance min(0.5, 0.2 + 0.03·level). Neither exceeds its cap or decreases with the level. |
| `Levels.Trunc` | ar_game/src/level_manager.py:85 | Python's `int()` on a float drops the fraction toward zero. |
| `Levels.PointBarBounds` | ar_game/src/level_manager.py:84-85 | The progress bar never exceeds the window, is full once the target is reached, and is empty at zero points. |
| `Levels.LossBarBounds` | ar_game/src/level_manager.py:87-91 | The loss bar's width is between 0 and the window width, its x plus its width is the window width, and it is empty while points are not negative. |
| `Game.LevelManager.constructor` | ar_game/src/level_manager.py:10-65 | A new manager is at level 1 with 0 of 30 points, no countdown, and bars drawn. |
| `Game.LevelManager.UpdateBar` | ar_game/src/level_manager.py:83-91 | The bars show the current points. |
| `Game.LevelManager.IncrementPoints` | ar_game/src/level_manager.py:73-77 | The new state is `Gain` of the old. Only on a level-up are spawning switched off, the fruit minimum and the bomb chance rewritten. |
| `Game.LevelManager.DecrementPoints` | ar_game/src/level_manager.py:79-81 | The new state is `Drop` of the old, with the bars redrawn. |
| `Game.LevelManager.NextLevel` | ar_game/src/level_manager.py:94-104 | Level + 1 with 0 points and the new target. Spawning is off, difficulty is set for the new level, and a 3-second countdown is started. |
| `Game.LevelManager.StartCountdown` | ar_game/src/level_manager.py:106-110 | The countdown is active with the given seconds. |
| `Game.LevelManager.CountdownTick` | ar_game/src/level_manager.py:112-122 | The new state is `Tick` of the old. Spawning is switched on exactly by the tick that ends the countdown. |
| `Game.GameManager.SetSpawningEnabled` | ar_game/src/game_manager.py:93-94 | Spawning is switched as asked. |
| `Game.GameManager.Spawn` | ar_game/src/game_manager.py:46-91 | A fresh object is appended: a bomb when the draw is below the bomb chance, a fruit otherwise. It sits just outside the left or right edge at the drawn height, with the drawn velocities. |
| `Game.SpawnedOnScreen` | ar_game/src/game_manager.py:71-73 | A spawned object is not yet counted as off screen. |
| `Game.GameManager.SpawnIfDue` | ar_game/src/game_manager.py:102-109 | A spawn happens exactly when spawning is on, there are fewer than the minimum objects and strictly more than the cooldown has passed. The spawn time and a new cooldown are then recorded and one fresh object is appended: a bomb or a fruit by the draw, just outside the drawn side, with the drawn motion. Otherwise nothing changes. |
| `Game.GameManager.UpdateSword` | ar_game/src/game_manager.py:212-243 | The sword's pose becomes `SwordAfter` of the old pose. |
| `Game.SwordEases` | ar_game/src/game_manager.py:214-243 | The sword is shown iff tip and hilt are both found, and is otherwise hidden and unmoved. When shown, it closes 45% of its distance to the tip and its short-way turn to the target angle shrinks to 82%. |
| `Game.WrapSpec` | ar_game/src/game_manager.py:237-239 | The wrapped angle difference lies in (-180, 180] and differs from the difference by whole turns. |
| `Game.WrapUnique` | ar_game/src/game_manager.py:237-239 | A value already in (-180, 180] whole turns away is the wrapped angle. |
| `Game.GameManager.PhysicsAll` | ar_game/src/game_manager.py:113-114 | Every object takes exactly one physics step. |
| `Game.GameManager.SliceAt` | ar_game/src/game_manager.py:196-209 | Slicing an object adds its points through the level manager and removes it from its place in the list. The settings the next frame reads follow the level (`SettingsFollowLevel`): the level never drops; without a level-up, spawning, the fruit minimum and the bomb chance are kept; after one, spawning is off and the fruit minimum and the bomb chance are those of the new level. |
| `Game.GameManager.CheckCollisions` | ar_game/src/game_manager.py:179-210 | The list afterwards and the score are those of `Sweep`, the index-based pass over the list as it shrinks. Each sliced object's points are gained in order. The settings the next frame reads follow the level (`SettingsFollowLevel`): the level never drops; without a level-up, spawning, the fruit minimum and the bomb chance are kept; after one, spawning is off and the fruit minimum and the bomb chance are those of the new level. |
| `Game.SweepPartition` | ar_game/src/game_manager.py:181-209 | The objects left and the objects sliced together are the objects at the start. Every sliced object was hit. |
| `Game.SweepPrefix` | ar_game/src/game_manager.py:181-209 | Objects before the pass position stay in place. At most every other object from there on is sliced. |
| `Game.MissedObjectsStay` | ar_game/src/game_manager.py:181-209 | An object the sword does not hit stays in the list. |
| `Game.SliceSkipsNext` | ar_game/src/game_manager.py:181-209 | After a slice the next object moves into the checked slot and stays in the list even when it is hit too. |
| `Game.SliceSkipsExample` | ar_game/src/game_manager.py:181-209 | With two overlapping objects in a row only the first is sliced in a pass. |
| `Game.HiddenSwordSlicesNothing` | ar_game/src/game_manager.py:194 | A hidden sword hits nothing and the pass slices nothing. |
| `Game.SliceStep` | ar_game/src/game_manager.py:196 | The score after one more slice is one more gain. |
| `Game.SplitOffScreen` | ar_game/src/game_manager.py:147-157 | The loop splits the list into the on-screen objects and the off-screen ones, both in list order. |
| `Game.KeptPartition` | ar_game/src/game_manager.py:147-157 | Kept and dropped objects together are the list. |
| `Game.KeptSides` | ar_game/src/game_manager.py:147-157 | An object is kept iff it is on screen, and dropped iff it is off screen. |
| `Game.KeptDistinct` | ar_game/src/game_manager.py:147-157 | Keeping preserves the absence of repeats. |
| `Game.GameManager.ChargePenalty` | ar_game/src/game_manager.py:159-162 | A lost object worth more than nothing costs half its points, rounded down. Others cost nothing. The level, spawning, the fruit minimum and the bomb chance are unchanged. |
| `Game.GameManager.ChargePenalties` | ar_game/src/game_manager.py:159-162 | The penalties are charged one after the other, in list order. The level, spawning, the fruit minimum and the bomb chance are unchanged. |
| `Game.PenaltyStep` | ar_game/src/game_manager.py:159-162 | The score after one more penalty is one more gain. |
| `Game.PenaltiesNonPositive` | ar_game/src/game_manager.py:159-162 | Penalties never add points. |
| `Game.CleanupKeepsLevel` | ar_game/src/game_manager.py:159-162 | Losing objects never changes the level. |
| `Game.GameManager.Cleanup` | ar_game/src/game_manager.py:138-177 | With spawning off the list is emptied and the score kept. Otherwise only the on-screen objects remain in their order and each lost one is charged. Afterwards no object is off screen. The level, spawning, the fruit minimum and the bomb chance are unchanged. |
| `Game.GameManager.Update` | ar_game/src/game_manager.py:96-118 | One frame. The spawn timing follows the spawn rule. The frame's list is the old list plus the spawned object, if any, and every object in it takes one physics step. The sword moves as `SwordAfter` says. The new list and score are those of the collision pass over that list (`Sweep`), followed by the clean-up: the on-screen objects are kept, or none once spawning is off, and each lost one is charged. No object is off screen afterwards. The settings the next frame reads follow the level (`SettingsFollowLevel`): the level never drops; without a level-up, spawning, the fruit minimum and the bomb chance are kept; after one, spawning is off and the fruit minimum and the bomb chance are those of the new level. |
| `Game.GameManager.MoveAll` | ar_game/src/game_manager.py:102-114 | The first part of a frame: the spawn rule, the sword's move and one physics step for every object, the spawned one included. The old objects keep their places. |
| `Game.GameManager.Resolve` | ar_game/src/game_manager.py:116-117 | The second part of a frame: the list and score become those of the collision pass followed by the clean-up, and no object is left off screen. The settings the next frame reads follow the level (`SettingsFollowLevel`): the level never drops; without a level-up, spawning, the fruit minimum and the bomb chance are kept; after one, spawning is off and the fruit minimum and the bomb chance are those of the new level. |
| `GameObjects.GameObject.constructor` | ar_game/src/game_object.py:12-16 | A new object stores its points and takes rotation and scale from the template sprite. |
| `GameObjects.GameObject.PhysicsUpdate` | ar_game/src/game_object.py:18-37 | The physics state becomes `Step` of the old one; scale and visibility are untouched. |
| `GameObjects.StepUsesNewVelocity` | ar_game/src/game_object.py:21-32 | Drag and gravity change the velocity first, and the position moves by the new velocity. Angular drag applies before the rotation moves. |
| `GameObjects.StepOffScreenIff` | ar_game/src/game_object.py:35-37 | After a step the flag is set iff it was set, or the object is fully past the left edge, past the right edge by its width, or below the bottom. |
| `GameObjects.OffScreenSticky` | ar_game/src/game_object.py:9-37 | Once set, the off-screen flag stays set for any number of steps. |
| `GameObjects.TopNeverExits` | ar_game/src/game_object.py:36 | Leaving through the top never sets the flag. |
| `GameObjects.StepsVelocity` | ar_game/src/game_object.py:21-24 | Without linear drag, n steps keep the x speed and lower the y speed by n·gravity·dt. |
| `Vector2D.AddSubInverse` | ar_game/src/vector_2d.py:42-46 | (a + b) - b = a, (a - b) + b = a, and addition commutes. |
| `Vector2D.NegInverse` | ar_game/src/vector_2d.py:42-58 | v + (-v) = 0, -(-v) = v, and 0 - v = -v. |
| `Vector2D.LerpEnds` | ar_game/src/vector_2d.py:37-40 | lerp(a, b, 0) = a and lerp(a, b, 1) = b; lerp moves along b - a. |
| `Vector2D.ScaleDiv` | ar_game/src/vector_2d.py:48-54 | Scaling is componentwise multiplication by (s, s), and dividing by a non-zero s undoes it. |
| `Vector2D.ReflectUnit` | ar_game/src/vector_2d.py:20-25 | For a unit normal the component along it changes sign, and reflecting twice gives v back. |
| `Vector2D.ReflectKeepsTangent` | ar_game/src/vector_2d.py:20-25 | Reflection keeps the part of v orthogonal to the normal. |
| `Vector2D.NormalizeSpec` | ar_game/src/vector_2d.py:13-17 | Normalising the zero vector gives zero. A non-zero vector is its normalised form scaled by its length. |
| `Images.ClearTransparent` | ar_game/src/image_loader.py:38-45 | The loop keeps the pixel count and makes each pixel `Cleared`: alpha 0 becomes (255, 255, 255, 0), others stay. |
| `Images.ClearedSpec` | ar_game/src/image_loader.py:40-44 | Clearing keeps alpha, changes only alpha-0 pixels, makes them all (255, 255, 255, 0), and is idempotent. |
| `Images.ProcessedSpec` | ar_game/src/image_loader.py:29-45 | Every processed pixel is already cleared. Without rotation the picture keeps its size and its opaque pixels. |
| `Images.BytesSpec` | ar_game/src/image_loader.py:48 | The image bytes hold four per pixel in RGBA order at offset 4i. |
| `Images.WrapSpec` | ar_game/src/image_loader.py:48-55 | The image keeps the size, its pitch is minus four bytes per column, and its anchor is (width // 2, height // 2). For width·height pixels the rows cover exactly the bytes. |
| `Images.ImageLoader.LoadImage` | ar_game/src/image_loader.py:14-63 | A known name returns its stored sprite whatever the rotation or scale, and nothing changes. Otherwise the processed image and a new sprite scaled by scale × base scale are stored under the name in both caches. |
| `Images.ImageLoader.GetSprite` | ar_game/src/image_loader.py:65-70 | The composite key is checked first. Otherwise the result is `LoadImage`'s, which only knows names. |
| `Images.SpriteKeyMisses` | ar_game/src/image_loader.py:58-70 | The composite key contains an underscore. When no stored name has one, as with the game's file names, the composite lookup never hits. |
| `Characters.Character.constructor` | ar_game_3d/character.py:11-36 | A new character has full health (100), is hidden, idle and undefeated, with nothing cached. Its original scale is the model's. |
| `Characters.Character.UpdateMarkerData` | ar_game_3d/character.py:38-46 | A sighting stamps the cache with the time and the marker data, and marks the marker detected. Valid health stays valid. |
| `Characters.CacheVisibleSpec` | ar_game_3d/character.py:48-61 | Visible iff the marker is detected now, or it was seen at most 1 s ago and a view matrix is cached. Visibility only lapses as time passes. |
| `Characters.Character.CurrentMarkerData` | ar_game_3d/character.py:63-71 | The cached triple while the character should be visible, otherwise (None, None, None). |
| `Characters.Character.Update` | ar_game_3d/character.py:73-98 | The status becomes `Advance` of the old one. The model shrinks to the death scale while dying. Valid health stays valid. |
| `Characters.Character.Animate` | ar_game_3d/character.py:75-86 | The first half of a frame: the detection flag clears, visibility comes from the cache alone, and a running attack animation advances and stops at one second with its timer reset (`Animated`). |
| `Characters.Character.Decline` | ar_game_3d/character.py:88-98 | The second half: a dying character's death timer advances and its model takes the death scale, never below 0.01. A finished death hides it and flags it for deletion (`Declined`). |
| `Characters.AdvanceVisibility` | ar_game_3d/character.py:75-79 | After an update the detection flag is clear and visibility is recomputed from the cache. |
| `Characters.AttackTimerSpec` | ar_game_3d/character.py:81-86 | The attack animation stops with its timer at 0 once it reaches 1 s. Until then it counts up. |
| `Characters.DeathCompletes` | ar_game_3d/character.py:89-98 | A dying character whose timer reaches 2 s becomes invisible and is flagged for deletion. The flag is never cleared. |
| `Characters.DeathScaleSpec` | ar_game_3d/character.py:92-94 | The death scale is max(0.01, (1 - min(1, t/2))·original). It never drops below 0.01, shrinks over time, and is 0.01 after 2 s. |
| `Characters.CooldownAfterAttack` | ar_game_3d/character.py:100-103 | Within 2 s of an attack a character cannot attack again. |
| `Characters.Character.Attack` | ar_game_3d/character.py:105-117 | When the cooldown allows it and there is a target, the attacker starts its animation, records the time and its target, and the target takes the hit. Otherwise nothing changes. A valid attacker and a valid target stay valid. |
| `Characters.Character.TakeDamage` | ar_game_3d/character.py:119-125 | The vitals become `Hurt` of the old ones; valid vitals stay valid. |
| `Characters.HurtSpec` | ar_game_3d/character.py:119-125 | Health becomes max(0, health - damage), never negative. Defeat is set the first time health reaches 0 and the death timer resets only then. |
| `Characters.FourHeavyHitsDefeat` | ar_game_3d/character.py:119-125 | From full health, four hits of 25 defeat a character and three do not. |
| `Battle.GameManager.constructor` | ar_game_3d/src/game_manager.py:14-16 | A new game has no characters and time 0. |
| `Battle.GameManager.AddCharacter` | ar_game_3d/src/game_manager.py:18-20 | The character is appended, keeping insertion order. |
| `Battle.GameManager.Update` | ar_game_3d/src/game_manager.py:22-30 | The game time grows by dt and the character list is unchanged. The characters' side of the frame is `Played`. The pair that fights, if any, is the attack rule applied to the first two characters that the statuses at the start of the frame show alive once advanced. It is two different characters of the game. Every other character is advanced one frame, or left untouched when it was flagged for deletion. The attacker starts its attack at `now` against the target, on top of its own update. The target is hurt on top of its own update and keeps the record of its own last attack. Every marker cache and marker position is kept, and every model's scale follows the death animation of a dying character. |
| `Battle.GameManager.Tick` | ar_game_3d/src/game_manager.py:26-30 | The same `Played` outcome for the characters, with the clock left alone. |
| `Battle.GameManager.UpdateCharacters` | ar_game_3d/src/game_manager.py:26-28 | Every character not flagged for deletion at the start of the frame is advanced one frame. The others are untouched. Each status is `Framed` of the one the frame began with. The marker caches, the marker positions and the record of the last attack are kept. |
| `Battle.GameManager.StepAll` | ar_game_3d/src/game_manager.py:27-28 | Each character of a list without repeated characters or models is advanced one frame, one after the other. Updating one character does not disturb those already updated. |
| `Battle.LiveSpec` | ar_game_3d/src/game_manager.py:27 | The characters updated are exactly those not flagged for deletion. |
| `Battle.FightersSpec` | ar_game_3d/src/game_manager.py:34 | The fighters are exactly the visible characters with health above zero. |
| `Battle.FightersAppend` | ar_game_3d/src/game_manager.py:34 | Fighters keep list order. |
| `Battle.Pair` | ar_game_3d/src/game_manager.py:34-56 | The rule picks the first two fighters, one way round or the other, or nobody. With fewer than two fighters it picks nobody. |
| `Battle.FramedKeepsVitals` | ar_game_3d/character.py:73-98 | A character's own update never changes its health or whether it is defeated. |
| `Battle.FightersFramed` | ar_game_3d/src/game_manager.py:26-34 | Once every live character has been updated, the fighters are those foreseen from the statuses and caches at the start of the frame. |
| `Battle.StrikersFramed` | ar_game_3d/src/game_manager.py:26-56 | Once every live character has been updated, the attack rule picks the pair foreseen from the start of the frame. The rule reads only marker positions, last-attack times and health, and an update changes none of them. |
| `Battle.CloseSpec` | ar_game_3d/src/game_manager.py:39-44 | Two characters are close iff both have a position at most 150 apart. A missing position is never close. |
| `Battle.DecideSpec` | ar_game_3d/src/game_manager.py:44-56 | There is no attack when far apart or when the roll fails. The first attacks iff it can, the second is alive and the roll succeeds. The second attacks iff the first cannot attack the second, it can, the first is alive and the roll succeeds. |
| `Battle.GameManager.Strikers` | ar_game_3d/src/game_manager.py:34-56 | The attacker and the target, when there is an attack, are characters of the game, and two different ones when no character is listed twice. |
| `Battle.GameManager.CheckCharacterInteractions` | ar_game_3d/src/game_manager.py:32-56 | At most one attack, by the two different characters the rule picks from the current fighters (`Strikers`). The attacker is attacking with its timer at zero and its cooldown restarted, and nothing else of it changes. The target is hurt, and nothing else of it changes. Every other character is unchanged, and only the attack and health fields can be written, so every marker cache and marker position is kept. |
| `MarkerPose.CenterSpec` | ar_game_3d/utils.py:51-57 | A marker's centre is the mean of its four corners, inside any box holding them. |
| `MarkerPose.MarkerLength` | ar_game_3d/utils.py:30-32 | The marker length is the larger of \|x0 - x1\| and \|x0 - x2\| of the first marker, so it is not negative. |
| `MarkerPose.MarkerPointsSquare` | ar_game_3d/utils.py:34-39 | The object points form a square of side `length` centred on the origin in z = 0, ordered (-,+), (+,+), (+,-), (-,-). |
| `MarkerPose.SolveEachSpec` | ar_game_3d/utils.py:41-48 | One pose per marker, in input order. |
| `MarkerPose.EstimatePoseSpec` | ar_game_3d/utils.py:27-48 | Every pose is solved against the square of the returned length. |
| `MarkerPose.ImageLayoutSpec` | ar_game_3d/utils.py:6-24 | A grey image has one channel and other formats the shape's last axis. The pitch is -(channels · columns). Only a shape of the right length unpacks. |

## Left out

- OpenCV, numpy and PIL work is foreign and appears only as parameters or abstract values:
  - colour conversion, thresholding, contour tracing and contour area;
  - ArUco detection and drawing;
  - perspective matrices and warps, flips and resizes;
  - `solvePnP`;
  - image decoding and alpha compositing;
  - rotation with bicubic resampling.
- Camera capture, windows, OpenGL rendering, pyglet labels, batches, sprites drawn on screen and clock scheduling are device I/O and UI.
  - The point labels of the 2D game and `animate_point_labels` are not modelled.
  - The label and countdown texts of the level manager are not modelled.
- The interactive loop of the extraction tool is not modelled: key handling, file output and the command line.
- The wall clock and the random draws come in as parameters:
  - spawn side, height, speed, angle and spin;
  - the spawn cooldown;
  - damage;
  - the fail roll.
- Each frame reads the clock once. The source calls `time.time()` separately in `can_attack`, `attack` and `should_be_visible`. The model gives all of them the same `now`.
- Floating point is modelled as exact reals. No claim is made about rounding.
- Euclidean distances are compared as squared distances. This orders points the same way.
- `atan2` and the degree conversion in `_update_sword` are abstract. The sword's target angle is a parameter, except for the vertical case, which is modelled.
- `Vector2D.NormalizeSpec`: the vector's length is a parameter tied to it by `length * length == v·v`, because square roots are not modelled. The lemma therefore does not state that the result has unit length. `length` and `rotate_angle` are not modelled.
- The class-level default `velocity` of `GameObject` is one shared `Vector2D`. The sharing has no effect in the game: every spawned object gets its own vector, and the sword is never in the object list, so its physics never runs. The model gives each object its own velocity value.
- The values of drag, gravity, the bomb and fruit points, the object interval, the game-over threshold and the minimum contour area are not defined in ar_game/src/config.py as it stands. They are fields of a `Settings` object or parameters.
- `GameManager._min_fruits` is written on level-up but never read. The model stores it without using it. `decrement_points` is modelled but never called by the game.
- `Character.position` is set to None and never used, so it is not modelled.
- The text of the numbers in the `get_sprite` key (Python's float formatting) is a parameter.
- The 2D game constructs a new `ImageLoader` for every sprite request, so no cache survives between requests. The model describes one loader and its caches.
- The sprite scale and the cached image are plain values. Sprite positions and drawing are not modelled.
- `Battle.GameManager.Update` moves the game clock on after the characters' side of the frame, not before it. Nothing reads the clock, so the outcome is the same.
- `Battle.GameManager.UpdateCharacters` requires that no character, and no character's model, appears twice in the list. The source does not check this, but two entries sharing one model would update the same scale twice.
- numpy's `argsort` does not specify the order of ties. The model resolves ties in input order. `Geometry.ClockwiseOrderSpec`, `MarkerDetection.FourMarkerBoard` and `ImageExtractor.OrderPointsSpec` state only facts that hold whatever the tie order: a rearrangement, y order between the two pairs and x order within each pair.
