# Bouncing sprites: simulation core

A Dafny model of the sequential core of the bouncing-sprites server:

- **Sprite** (`sprite.dfy`, module `Sprites`): a class with the Java fields (`spriteID`, `x`,
  `y`, `dx`, `dy`, `color`, `colour`, `sizeH`, `sizeW`). It has the constructor, the
  two-phase `move` (reflect off each wall the sprite is past and still heading out of, then
  translate by the velocity) and `setColour`. Each method is proved against a function on
  a `SpriteState` snapshot. The lemmas about the one-axis step `StepAxis` give the per-case
  bounce behaviour, speed preservation and the band invariant: a sprite within one
  speed-step of the field stays within one speed-step of it.
- **Shared list** (`sprite_list.dfy`, module `SpriteLists`): the one `List<Sprite>` object
  that the server and the facade both hold. It is a class with a `seq<Sprite>` field and
  an in-place `Add`.
- **Facade** (`bouncing_sprites_impl.dfy`, module `Facade`): `BouncingSpritesImpl`, with its
  fixed height and width, the aliased list it returns, and `CreateSprite`, which appends
  exactly one sprite.
- **Server** (`server.dfy`, module `SpriteServer`): start-up, which adds three random
  sprites when the loaded list is empty; `calcColour`, an in-place loop proved against
  `Propagate` (closed form: element `i` is RED, BLUE, GREEN for `i mod 3` = 0, 1, 2); and
  one tick of the simulation loop (recolour, then move every sprite once, in list order).

`Server.Valid()` is the registry invariant. The facade holds the server's own list object.
The list is never empty and holds no sprite twice. Start-up establishes that the list is
shared and non-empty. The no-duplicates half is assumed of the loaded list (see "## Left
out"), and the bootstrap sprites are fresh. Ticks and remote creates keep the invariant. It
is also what makes `calcColour`'s `get(0)` safe.

Random draws (`nextInt`) are parameters, constrained to the range `nextInt` returns.
Java's `null` for a sprite's colour before its first `setColour` is the empty string for
`colour` and `Color.Unset` for `color`.

Facts about the code that the model records:
- Drawn speeds lie in [-5, 4]: `nextInt(10) - 5` never yields 5, although MAX_SPEED is 5. A
  bounce can turn -5 into 5 (`SpriteServer.BounceReachesMaxSpeed`), and `move` keeps each
  speed's magnitude (`Sprites.MoveState`), so over a run a speed's magnitude stays at most 5.
- `move` does not keep positions inside `[0, bound - SIZE]`. The guard at Sprite.java:131 is a
  strict `>`, so a sprite exactly on the high edge and moving outwards does not bounce
  (`Sprites.EdgeDoesNotBounce`). The property that holds is the band invariant
  (`Sprites.BandPreserved`, `SpriteServer.TickKeepsField`). It is only preserved: nothing
  places a new sprite inside it. Bootstrap positions lie in [-500, 499] and `createSprite` accepts any
  position. A speed of 0 on an axis (draw 5 of `nextInt(10)`) never changes, so a sprite
  created off the field with that speed stays off the field on that axis forever
  (`Sprites.StalledAxis`, `SpriteServer.BootSpriteStalled`).
- `calcColour` throws on an empty list (`get(0)`, Server.java:162), so the model requires a
  non-empty list, and the server's invariant guarantees one.
- `getSprites` returns the live list itself for the in-process call at Server.java:129. A
  remote viewer (Client.java:89) gets a copy, because RMI passes the Serializable list by
  value.

## Model

| member | source | states |
|---|---|---|
| Sprites.ColorOf | src/sprite/rmi/Sprite.java:263-274 | the colour is not black exactly when the name is RED, BLUE or GREEN, and then it names back to the same string; any other string gives black |
| Sprites.NameOf | src/sprite/rmi/Sprite.java:263-274 | a cycle colour's name is one of the three names `setColour` recognises |
| Sprites.NameOfColorOf | src/sprite/rmi/Sprite.java:263-274 | naming a red, blue or green colour and mapping the name back gives the same colour |
| Sprites.DrawSpeed | src/sprite/rmi/Sprite.java:98-99 | a drawn speed lies in [-MAX_SPEED, MAX_SPEED - 1] and determines its draw |
| Sprites.StepAxis | src/sprite/rmi/Sprite.java:117-145 | one axis of `move` keeps the speed's magnitude and at most flips its sign |
| Sprites.LowBounce | src/sprite/rmi/Sprite.java:121-144 | past the low wall and heading out (field at least a sprite wide): velocity negated, position ends at -dx |
| Sprites.HighBounce | src/sprite/rmi/Sprite.java:131-144 | past the high wall and heading out: velocity negated, position ends at bound - SIZE - dx |
| Sprites.NoBounce | src/sprite/rmi/Sprite.java:121-144 | in every other case the position advances by the velocity and the velocity is kept |
| Sprites.NarrowFieldBouncesTwice | src/sprite/rmi/Sprite.java:121-135 | in a field narrower than a sprite the low bounce is followed by the high one, so the velocity keeps its sign |
| Sprites.EdgeDoesNotBounce | src/sprite/rmi/Sprite.java:131-144 | a sprite exactly at bound - SIZE moving out does not bounce and leaves the field |
| Sprites.BandPreserved | src/sprite/rmi/Sprite.java:121-144 | with bound >= SIZE, being within one speed-step of `[0, bound - SIZE]` is kept by a step |
| Sprites.CornerScenario | src/sprite/rmi/Sprite.java:117-145 | on a 500-wide axis with speed 5, position 0 goes to 5 and position 495 bounces to 485 |
| Sprites.Reflect | src/sprite/rmi/Sprite.java:121-140 | the reflect phase keeps the speed's magnitude; a velocity that changes sign is pointed back into the field and the position is set to a wall (0 or bound - SIZE) |
| Sprites.MoveAxesIndependent | src/sprite/rmi/Sprite.java:117-145 | the new x and dx depend only on x, dx and the width; the new y and dy only on y, dy and the height |
| SpriteLists.SpriteList.constructor | src/sprite/rmi/Server.java:95 | the loaded list holds the loaded sprites in their order |
| SpriteLists.SpriteList.Add | src/sprite/rmi/Server.java:99-101 | the registry's append: the new sprite goes at the end, and the earlier elements are kept in order |
| SpriteServer.Next | src/sprite/rmi/Server.java:164-174 | the switch: a cycle-name predecessor selects its successor, a different name from itself; any other name falls through and leaves the element as it was |
| SpriteServer.Recolour | src/sprite/rmi/Server.java:161-176 | after calcColour, sprite k has colour name `CycleName(k)` and the colour for it, and everything else about it is unchanged |
| SpriteServer.TickStates | src/sprite/rmi/Server.java:138-142 | after a tick, sprite k is its old state moved once, with colour name `CycleName(k)` and the colour for it |
| SpriteServer.MoveAll | src/sprite/rmi/Server.java:139-142 | the states after the tick's `for` loop: the length is kept (its one ensures); that element k is `MoveState` of element k comes from the body |
| Sprites.MoveState | src/sprite/rmi/Sprite.java:117-145 | `move` changes only x, y, dx, dy, and keeps both speed magnitudes |
| Sprites.MovePreservesField | src/sprite/rmi/Sprite.java:117-145 | the band invariant holds on both axes across `move` |
| Sprites.StalledAxis | src/sprite/rmi/Sprite.java:121-144 | an axis with speed 0 neither bounces nor moves, so an axis outside the band stays outside it |
| Sprites.Spawned | src/sprite/rmi/Sprite.java:93-100 | a new sprite has the given bounds and position and speeds in [-5, 4] |
| Sprites.Sprite.constructor | src/sprite/rmi/Sprite.java:93-100 | stores sizeH, sizeW, x, y as given and draws dx, dy from `nextInt(2 * MAX_SPEED) - MAX_SPEED` |
| Sprites.Sprite.Move | src/sprite/rmi/Sprite.java:117-145 | the new fields are `MoveState` of the old ones: reflect, then translate, and nothing else changes |
| Sprites.Sprite.SetColour | src/sprite/rmi/Sprite.java:263-274 | stores the name and `ColorOf(name)`; every other field is unchanged |
| Facade.BouncingSpritesImpl.constructor | src/sprite/rmi/BouncingSpritesImpl.java:25-30 | keeps the very list object given, and the height and width |
| Facade.BouncingSpritesImpl.GetHeight | src/sprite/rmi/BouncingSpritesImpl.java:37-39 | returns the constructor's height (a constant field) |
| Facade.BouncingSpritesImpl.GetWidth | src/sprite/rmi/BouncingSpritesImpl.java:46-48 | returns the constructor's width (a constant field) |
| Facade.BouncingSpritesImpl.GetSprites | src/sprite/rmi/BouncingSpritesImpl.java:55-57 | returns the shared list object itself, not a copy |
| Facade.BouncingSpritesImpl.CreateSprite | src/sprite/rmi/BouncingSpritesImpl.java:64-66 | appends exactly one new sprite at the end: earlier elements are kept in order, and the new one has the caller's x and y unchecked and the facade's height and width |
| SpriteServer.Successor | src/sprite/rmi/Server.java:163-175 | RED goes to BLUE, BLUE to GREEN and GREEN to RED, always to a different cycle name |
| SpriteServer.Propagate | src/sprite/rmi/Server.java:161-176 | recolouring keeps the list length (the recursive contract its own definition needs) |
| SpriteServer.PropagateFirst | src/sprite/rmi/Server.java:162 | element 0 is RED whatever it was before |
| SpriteServer.PropagatePrefix | src/sprite/rmi/Server.java:163-175 | the left-to-right pass settles each prefix independently of what follows |
| SpriteServer.PropagateStep | src/sprite/rmi/Server.java:163-175 | element i is chosen from the freshly set colour of element i - 1 |
| SpriteServer.PropagateClosedForm | src/sprite/rmi/Server.java:161-176 | element i is RED, BLUE or GREEN as i mod 3 is 0, 1 or 2 |
| SpriteServer.PropagateSuccessor | src/sprite/rmi/Server.java:163-175 | every element after the first is the successor of the one before it, which is always a cycle name, so the switch never falls through |
| SpriteServer.PropagateIgnoresPrior | src/sprite/rmi/Server.java:161-176 | the result depends only on the list's length, not on prior colours |
| SpriteServer.PropagateIdempotent | src/sprite/rmi/Server.java:161-176 | recolouring an already recoloured list changes nothing |
| SpriteServer.RecolourIdempotent | src/sprite/rmi/Server.java:161-176 | on whole sprite states, two calcColour passes equal one |
| SpriteServer.TickAt | src/sprite/rmi/Server.java:138-142 | after a tick, sprite k has the closed-form colour, has moved exactly once, and nothing else about it changed |
| SpriteServer.TickKeepsField | src/sprite/rmi/Server.java:138-142 | a tick keeps every sprite of a field at least a sprite wide within one speed-step of it |
| SpriteServer.DrawCoord | src/sprite/rmi/Server.java:99-101 | a bootstrap coordinate `nextInt(2 * extent) - extent` lies in [-extent, extent - 1] |
| SpriteServer.BootSprite | src/sprite/rmi/Server.java:99-101 | a bootstrap sprite has bounds (HEIGHT, WIDTH), x in [-WIDTH, WIDTH - 1], y in [-HEIGHT, HEIGHT - 1] |
| SpriteServer.BootSpriteStalled | src/sprite/rmi/Server.java:99-101 | the draws (0, 500, 5, 5) give a bootstrap sprite at x = -500 with both speeds 0: it is outside the band and `move` leaves it unchanged |
| SpriteServer.BounceReachesMaxSpeed | src/sprite/rmi/Sprite.java:121-124 | the draws (400, 600, 0, 0) give a bootstrap sprite at x = -100 with dx = -5; its first `move` bounces off the low wall and leaves dx = 5, outside the drawn range [-5, 4] |
| SpriteServer.NewBootSprite | src/sprite/rmi/Server.java:99-101 | one bootstrap `new Sprite(HEIGHT, WIDTH, x, y)` with drawn coordinates: a fresh sprite whose state is `BootSprite` of its draws |
| SpriteServer.Server.constructor | src/sprite/rmi/Server.java:98-108 | a non-empty loaded list is kept as is and no draws are needed; an empty one gets exactly three fresh bootstrap sprites; the facade gets the same list and (HEIGHT, WIDTH); the invariant holds, so the loop's first calcColour is safe |
| SpriteServer.Server.CalcColour | src/sprite/rmi/Server.java:161-176 | on the non-empty list, every sprite's colour name becomes `Propagate` of the old names, with the colour that name gives; the list and all other fields are unchanged |
| SpriteServer.SwitchStep | src/sprite/rmi/Server.java:163-175 | one pass of the loop's switch: when the previous sprite holds `CycleName(i - 1)`, the current one gets `CycleName(i)` and the colour for it, and nothing else about it changes |
| SpriteServer.Server.Tick | src/sprite/rmi/Server.java:129-142 | the list's reconciliation finds one shared object; then the sprites' states become `TickStates` of the old ones: recolour, then move each sprite once |
| SpriteServer.Server.MoveEvery | src/sprite/rmi/Server.java:139-142 | the tick's loop calls `move` on every sprite of the list once, in order: the states become `MoveAll` of the old ones, and the list is unchanged |
| SpriteServer.Server.RemoteCreate | src/sprite/rmi/BouncingSpritesImpl.java:64-66 | a create request through the exported facade appends one sprite to the server's own list and keeps the registry invariant |

## Left out

- Persistence through Hibernate (session factory, transactions, `saveOrUpdate`, the query that loads the stored sprites, the JPA annotations): a foreign ORM layer. The loaded list is a constructor argument of `Server`, and the sprite ID stays at its initial value.
- SpriteServer.Server.constructor: requires the loaded list to hold no sprite object twice. The Hibernate query at Server.java:95 returns one object per stored row within its session, so the persistence layer meets this. Without it, a sprite listed twice would be moved twice per tick by the loop at Server.java:139-140, and `Tick`'s contract would not hold.
- RMI transport (`LocateRegistry`, `Naming.rebind`, `UnicastRemoteObject`, `RemoteException`): transport only; the facade's methods are plain calls.
- Concurrency: the thread pool, the endless `while (true)` loop and its 40 ms sleep, and the unsynchronised race between `createSprite` and a tick. Ticks and creates are sequential method calls (`Server.Tick`, `Server.RemoteCreate`), any number of them in any order.
- The list reconciliation in the loop (`Server.java:129-131`) compares two references to one list object, so it never swaps. `Server.Tick` asserts that the two references are equal and swaps nothing.
- `Client.java` (Swing viewer and polling loop) and the `BouncingSprites` interface: no logic beyond calling the facade.
- `Sprite.draw` and `java.awt.Color` rendering: colours are a five-value datatype (`Unset`, `Red`, `Blue`, `Green`, `Black`).
- `java.util.Random`: every draw is a parameter constrained to the range `nextInt` returns.
- The no-argument `Sprite()` constructor and the plain getters and setters: they only read or write fields, which the model accesses directly.
- Java's integer width: positions and speeds are unbounded integers. For the field bounds used (500), `move`'s additions cannot overflow 32 bits even for the unchecked positions `createSprite` accepts: a position near either end of the range that is still heading outwards is clamped to a wall before the velocity is added.
